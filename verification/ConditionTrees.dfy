/** The tree walks that rename the keys of a condition. Go ranges over a map in an
    arbitrary order, so a walk is specified by the relation Renames, which holds of
    every outcome any order can give; when two keys collide the outcomes differ. */
module ConditionTrees {
  import opened Json

  /** What happens to a key, given whether its value is a leaf. */
  type KeyMap = (bool, string) -> string

  function NewKey(f: KeyMap, m: Fields, k: string): string
    requires k in m
  {
    f(m[k].IsLeaf(), k)
  }

  /** out is a possible outcome of renaming every key of c by f. */
  ghost predicate Renames(f: KeyMap, c: Json, out: Json)
    decreases c, 1
  {
    match c
    case Arr(xs) =>
      out.Arr? && |out.items| == |xs| && forall i | 0 <= i < |xs| :: Renames(f, xs[i], out.items[i])
    case Obj(m) =>
      && out.Obj?
      && (forall k | k in m :: NewKey(f, m, k) in out.fields)
      && (forall q | q in out.fields :: HasSource(f, c, q, out.fields[q]))
    case _ => out == c
  }

  /** The value v under key q was written for some key of the object c. */
  ghost predicate HasSource(f: KeyMap, c: Json, q: string, v: Json)
    requires c.Obj?
    decreases c, 0
  {
    exists k | k in c.fields :: NewKey(f, c.fields, k) == q && Renames(f, c.fields[k], v)
  }

  ghost function Source(f: KeyMap, c: Json, q: string, v: Json): (k: string)
    requires c.Obj? && HasSource(f, c, q, v)
    ensures k in c.fields && NewKey(f, c.fields, k) == q && Renames(f, c.fields[k], v)
  {
    var k :| k in c.fields && NewKey(f, c.fields, k) == q && Renames(f, c.fields[k], v);
    k
  }

  // ---------------------------------------------------------------- the walks

  /** The key map of handleDotTilde: only the keys of leaves are replaced. */
  function OnLeaves(replace: string -> string): KeyMap {
    (leaf, k) => if leaf then replace(k) else k
  }

  /** The key map of handleUniqueParams: every key is replaced. */
  function OnAll(getKey: string -> string): KeyMap {
    (leaf, k) => getKey(k)
  }

  /** The part of Renames that holds of one object once the keys in done are written. */
  ghost predicate Written(f: KeyMap, c: Json, done: set<string>, out: Fields)
    requires c.Obj?
  {
    && (forall k | k in c.fields && k in done :: NewKey(f, c.fields, k) in out)
    && (forall q | q in out :: HasSource(f, c, q, out[q]))
  }

  lemma WriteOne(f: KeyMap, c: Json, done: set<string>, out: Fields, k: string, v: Json)
    requires c.Obj? && Written(f, c, done, out)
    requires k in c.fields && Renames(f, c.fields[k], v)
    ensures Written(f, c, done + {k}, out[NewKey(f, c.fields, k) := v])
  {
  }

  /** handleDotTildeMap. */
  method HandleDotTildeMap(input: Fields, replace: string -> string) returns (output: Fields)
    ensures Renames(OnLeaves(replace), Obj(input), Obj(output))
    decreases Obj(input)
  {
    output := map[];
    var todo := input.Keys;
    ghost var done := {};
    while todo != {}
      invariant todo + done == input.Keys
      invariant Written(OnLeaves(replace), Obj(input), done, output)
      decreases |todo|
    {
      var k :| k in todo;
      var v := input[k];
      var before := output;
      match v {
        case Arr(xs) =>
          var ys := HandleDotTildeArr(xs, replace);
          v := Arr(ys);
          output := output[k := v];
        case Obj(m) =>
          var n := HandleDotTildeMap(m, replace);
          v := Obj(n);
          output := output[k := v];
        case _ =>
          output := output[replace(k) := v];
      }
      WriteOne(OnLeaves(replace), Obj(input), done, before, k, v);
      todo, done := todo - {k}, done + {k};
    }
  }

  /** handleDotTildeArr. */
  method HandleDotTildeArr(input: seq<Json>, replace: string -> string) returns (output: seq<Json>)
    ensures Renames(OnLeaves(replace), Arr(input), Arr(output))
    decreases Arr(input)
  {
    output := [];
    for i := 0 to |input|
      invariant |output| == i
      invariant forall j | 0 <= j < i :: Renames(OnLeaves(replace), input[j], output[j])
    {
      match input[i] {
        case Arr(xs) =>
          var ys := HandleDotTildeArr(xs, replace);
          output := output + [Arr(ys)];
        case Obj(m) =>
          var n := HandleDotTildeMap(m, replace);
          output := output + [Obj(n)];
        case v =>
          output := output + [v];
      }
    }
  }

  /** handleUniqueParamsMap. */
  method HandleUniqueParamsMap(input: Fields, getKey: string -> string) returns (output: Fields)
    ensures Renames(OnAll(getKey), Obj(input), Obj(output))
    decreases Obj(input)
  {
    output := map[];
    var todo := input.Keys;
    ghost var done := {};
    while todo != {}
      invariant todo + done == input.Keys
      invariant Written(OnAll(getKey), Obj(input), done, output)
      decreases |todo|
    {
      var k :| k in todo;
      var v := input[k];
      match v {
        case Arr(xs) =>
          var ys := HandleUniqueParamsArr(xs, getKey);
          v := Arr(ys);
        case Obj(m) =>
          var n := HandleUniqueParamsMap(m, getKey);
          v := Obj(n);
        case _ =>
      }
      WriteOne(OnAll(getKey), Obj(input), done, output, k, v);
      output := output[getKey(k) := v];
      todo, done := todo - {k}, done + {k};
    }
  }

  /** handleUniqueParamsArr. */
  method HandleUniqueParamsArr(input: seq<Json>, getKey: string -> string) returns (output: seq<Json>)
    ensures Renames(OnAll(getKey), Arr(input), Arr(output))
    decreases Arr(input)
  {
    output := [];
    for i := 0 to |input|
      invariant |output| == i
      invariant forall j | 0 <= j < i :: Renames(OnAll(getKey), input[j], output[j])
    {
      match input[i] {
        case Arr(xs) =>
          var ys := HandleUniqueParamsArr(xs, getKey);
          output := output + [Arr(ys)];
        case Obj(m) =>
          var n := HandleUniqueParamsMap(m, getKey);
          output := output + [Obj(n)];
        case v =>
          output := output + [v];
      }
    }
  }

  // ---------------------------------------------------------------- collisions

  /** No two keys of one object are renamed to the same key, anywhere in the tree. */
  ghost predicate NoCollision(f: KeyMap, c: Json)
    decreases c
  {
    match c
    case Arr(xs) => forall i | 0 <= i < |xs| :: NoCollision(f, xs[i])
    case Obj(m) =>
      && (forall k, l | k in m && l in m && NewKey(f, m, k) == NewKey(f, m, l) :: k == l)
      && (forall k | k in m :: NoCollision(f, m[k]))
    case _ => true
  }

  /** Without collisions each renamed key holds what its one source became. */
  lemma TheSource(f: KeyMap, c: Json, out: Json, k: string)
    requires c.Obj? && NoCollision(f, c) && Renames(f, c, out) && k in c.fields
    ensures out.Obj? && NewKey(f, c.fields, k) in out.fields
    ensures Renames(f, c.fields[k], out.fields[NewKey(f, c.fields, k)])
  {
    var q := NewKey(f, c.fields, k);
    var l := Source(f, c, q, out.fields[q]);
  }

  /** Without collisions every iteration order gives the same tree. */
  lemma {:induction false} OneOutcome(f: KeyMap, c: Json, out: Json, out': Json)
    requires NoCollision(f, c) && Renames(f, c, out) && Renames(f, c, out')
    ensures out == out'
    decreases c
  {
    match c
    case Arr(xs) =>
      forall i | 0 <= i < |xs| ensures out.items[i] == out'.items[i] {
        OneOutcome(f, xs[i], out.items[i], out'.items[i]);
      }
    case Obj(m) =>
      SameFields(f, c, out, out');
      SameFields(f, c, out', out);
      forall q | q in out.fields ensures out.fields[q] == out'.fields[q] {
        var k := Source(f, c, q, out.fields[q]);
        TheSource(f, c, out', k);
        OneOutcome(f, m[k], out.fields[q], out'.fields[q]);
      }
      assert out.fields == out'.fields;
    case _ =>
  }

  lemma SameFields(f: KeyMap, c: Json, out: Json, out': Json)
    requires c.Obj? && Renames(f, c, out) && Renames(f, c, out')
    ensures out.fields.Keys <= out'.fields.Keys
  {
    forall q | q in out.fields ensures q in out'.fields {
      var k := Source(f, c, q, out.fields[q]);
    }
  }

  lemma SameShape(f: KeyMap, c: Json, out: Json)
    requires Renames(f, c, out)
    ensures out.IsLeaf() == c.IsLeaf()
  {
  }

  /** h renames as f and then g would. */
  ghost predicate Then(f: KeyMap, g: KeyMap, h: KeyMap) {
    forall leaf, k :: h(leaf, k) == g(leaf, f(leaf, k))
  }

  /** Two walks after one another are one walk, if the first makes no keys collide. */
  lemma {:induction false} Compose(f: KeyMap, g: KeyMap, h: KeyMap, c: Json, mid: Json, out: Json)
    requires Then(f, g, h) && NoCollision(f, c) && Renames(f, c, mid) && Renames(g, mid, out)
    ensures Renames(h, c, out)
    decreases c
  {
    match c
    case Arr(xs) =>
      forall i | 0 <= i < |xs| ensures Renames(h, xs[i], out.items[i]) {
        Compose(f, g, h, xs[i], mid.items[i], out.items[i]);
      }
    case Obj(m) =>
      forall k | k in m ensures NewKey(h, m, k) in out.fields {
        TheSource(f, c, mid, k);
        SameShape(f, m[k], mid.fields[NewKey(f, m, k)]);
      }
      forall q | q in out.fields ensures HasSource(h, c, q, out.fields[q]) {
        var l := Source(g, mid, q, out.fields[q]);
        var k := Source(f, c, l, mid.fields[l]);
        SameShape(f, m[k], mid.fields[l]);
        Compose(f, g, h, m[k], mid.fields[l], out.fields[q]);
      }
    case _ =>
  }

  // ---------------------------------------------------------------- which keys a tree holds

  /** Every key anywhere in the tree satisfies p. */
  ghost predicate AllKeys(p: string -> bool, c: Json)
    decreases c
  {
    match c
    case Arr(xs) => forall i | 0 <= i < |xs| :: AllKeys(p, xs[i])
    case Obj(m) => forall k | k in m :: p(k) && AllKeys(p, m[k])
    case _ => true
  }

  /** A key map that is injective on the keys of a tree makes none of them collide. */
  lemma {:induction false} InjectiveNoCollision(f: KeyMap, p: string -> bool, c: Json)
    requires AllKeys(p, c)
    requires forall b, b', k, l | p(k) && p(l) && f(b, k) == f(b', l) :: k == l
    ensures NoCollision(f, c)
    decreases c
  {
    match c
    case Arr(xs) => forall i | 0 <= i < |xs| ensures NoCollision(f, xs[i]) { InjectiveNoCollision(f, p, xs[i]); }
    case Obj(m) => forall k | k in m ensures NoCollision(f, m[k]) { InjectiveNoCollision(f, p, m[k]); }
    case _ =>
  }

  /** If no key is renamed to anything but itself, the walk changes nothing. */
  lemma {:induction false} FixedKeysFixTree(f: KeyMap, p: string -> bool, c: Json, out: Json)
    requires Renames(f, c, out) && AllKeys(p, c)
    requires forall leaf, k | p(k) :: f(leaf, k) == k
    ensures out == c
    decreases c
  {
    match c
    case Arr(xs) =>
      forall i | 0 <= i < |xs| ensures out.items[i] == xs[i] {
        FixedKeysFixTree(f, p, xs[i], out.items[i]);
      }
    case Obj(m) =>
      forall q | q in out.fields ensures q in m && out.fields[q] == m[q] {
        var k := Source(f, c, q, out.fields[q]);
        FixedKeysFixTree(f, p, m[k], out.fields[q]);
      }
      forall k | k in m ensures k in out.fields { assert NewKey(f, m, k) == k; }
      assert out.fields == m;
    case _ =>
  }

  // ---------------------------------------------------------------- depth

  /** A walk never deepens a tree. */
  lemma {:induction false} RenamesDepth(f: KeyMap, c: Json, out: Json)
    requires Renames(f, c, out)
    ensures Depth(out) <= Depth(c)
    decreases c
  {
    match c
    case Arr(xs) =>
      forall y | y in out.items ensures y < out && Depth(y) <= Depth(c) - 1 {
        var i :| 0 <= i < |xs| && out.items[i] == y;
        assert xs[i] in xs;
        RenamesDepth(f, xs[i], y);
      }
      ItemsDepth(out, out.items, Depth(c) - 1);
    case Obj(m) =>
      forall q | q in out.fields.Keys ensures Depth(out.fields[q]) <= Depth(c) - 1 {
        var k := Source(f, c, q, out.fields[q]);
        assert k in m.Keys;
        RenamesDepth(f, m[k], out.fields[q]);
      }
      FieldsDepth(out, out.fields.Keys, Depth(c) - 1);
    case _ =>
  }

  lemma {:induction false} ItemsDepth(c: Json, xs: seq<Json>, d: nat)
    requires forall x | x in xs :: x < c && Depth(x) <= d
    ensures DepthOfItems(c, xs) <= d
    decreases |xs|
  {
    if xs != [] {
      assert xs[0] in xs && forall x | x in xs[1..] :: x in xs;
      ItemsDepth(c, xs[1..], d);
    }
  }

  lemma {:induction false} FieldsDepth(c: Json, keys: set<string>, d: nat)
    requires c.Obj? && keys <= c.fields.Keys
    requires forall k | k in keys :: Depth(c.fields[k]) <= d
    ensures DepthOfFields(c, keys) <= d
    decreases |keys|
  {
    if keys != {} {
      forall k | k in keys ensures DepthOfFields(c, keys - {k}) <= d {
        FieldsDepth(c, keys - {k}, d);
      }
    }
  }
}
