/** piazza.GetVarsFromStructSkip: the leaves of a tree keyed by their dotted paths. */
module Flattening {
  import opened Json
  import opened DottedNames

  /** What is recorded for a leaf: its value, or the JSON text of an object that the
      caller asked not to enter. */
  datatype Var = Value(v: Json) | Text(of: Json) {
    /** piazza.ValueIsValidArray */
    predicate IsArray() {
      Value? && v.Arr?
    }
  }

  /** x is recorded for the leaf at path p of c, c itself being at prefix. */
  ghost predicate LeafAt(c: Json, prefix: seq<string>, skip: set<string>, p: seq<string>, x: Var)
    decreases |p|
  {
    && c.Obj? && |p| >= 1 && p[0] in c.fields
    && var v, here := c.fields[p[0]], prefix + [p[0]];
       if v.Obj? && Join(here) !in skip then LeafAt(v, here, skip, p[1..], x)
       else |p| == 1 && x == Recorded(v)
  }

  /** The variable stands for a leaf of c. */
  ghost predicate FromLeaf(c: Json, prefix: seq<string>, skip: set<string>, k: string, x: Var) {
    exists p :: LeafAt(c, prefix, skip, p, x) && k == Join(prefix + p)
  }

  /** vars holds the leaves of c below the keys in done, and what was in base before;
      of leaves with the same dotted path any may be the one recorded. */
  ghost predicate Collected(c: Json, done: set<string>, prefix: seq<string>, skip: set<string>,
                            base: map<string, Var>, vars: map<string, Var>) {
    && base.Keys <= vars.Keys
    && (forall p, x | LeafAt(c, prefix, skip, p, x) && p[0] in done :: Join(prefix + p) in vars)
    && (forall k | k in vars :: (k in base && vars[k] == base[k]) || FromLeaf(c, prefix, skip, k, vars[k]))
  }

  // ---------------------------------------------------------------- every iteration order

  /** Visiting the keys in done in some order turns base into vars; leaves with one
      dotted path overwrite one another. */
  ghost predicate Fills(c: Json, done: set<string>, prefix: seq<string>, skip: set<string>,
                        base: map<string, Var>, vars: map<string, Var>)
    requires c.Obj? && done <= c.fields.Keys
    decreases c, 1, |done|
  {
    if done == {} then vars == base
    else exists k, mid | k in done ::
      Fills(c, done - {k}, prefix, skip, base, mid) && Visits(c, k, prefix, skip, mid, vars)
  }

  /** Visiting the key k turns mid into vars. */
  ghost predicate Visits(c: Json, k: string, prefix: seq<string>, skip: set<string>,
                         mid: map<string, Var>, vars: map<string, Var>)
    requires c.Obj? && k in c.fields
    decreases c, 0
  {
    var v, here := c.fields[k], prefix + [k];
    if v.Obj? && Join(here) !in skip then Fills(v, v.fields.Keys, here, skip, mid, vars)
    else vars == mid[Join(here) := Recorded(v)]
  }

  function Recorded(v: Json): Var {
    if v.Obj? then Text(v) else Value(v)
  }

  /** A possible result for the whole tree. */
  ghost predicate IsVars(tree: Fields, skip: set<string>, vars: map<string, Var>) {
    Fills(Obj(tree), tree.Keys, [], skip, map[], vars)
  }

  method GetVarsFromStructSkip(tree: Fields, skip: set<string>) returns (vars: map<string, Var>)
    ensures IsVars(tree, skip, vars)
  {
    vars := Helper(tree, map[], [], skip);
  }

  method Helper(input: Fields, res: map<string, Var>, path: seq<string>, skip: set<string>)
    returns (vars: map<string, Var>)
    ensures Fills(Obj(input), input.Keys, path, skip, res, vars)
    decreases Obj(input), 1
  {
    vars := res;
    var todo := input.Keys;
    NothingVisited(Obj(input), path, skip, res);
    while todo != {}
      invariant todo <= input.Keys
      invariant FillsBut(Obj(input), todo, path, skip, res, vars)
      decreases |todo|
    {
      var k :| k in todo;
      ghost var before := vars;
      vars := Visit(input, k, vars, path, skip);
      FillOne(Obj(input), todo, path, skip, res, before, k, vars);
      todo := todo - {k};
    }
    AllVisited(Obj(input), path, skip, res, vars);
  }

  /** The body of the helper's loop. */
  method Visit(input: Fields, k: string, res: map<string, Var>, path: seq<string>, skip: set<string>)
    returns (vars: map<string, Var>)
    requires k in input
    ensures Visits(Obj(input), k, path, skip, res, vars)
    decreases Obj(input), 0
  {
    var v := input[k];
    var varPath := Join(path + [k]);
    if v.Obj? && varPath !in skip {
      vars := Helper(v.fields, res, path + [k], skip);
    } else {
      vars := res[varPath := if v.Obj? then Text(v) else Value(v)];
    }
  }

  /** All keys but those in todo are visited. */
  ghost predicate FillsBut(c: Json, todo: set<string>, prefix: seq<string>, skip: set<string>,
                           base: map<string, Var>, vars: map<string, Var>)
    requires c.Obj?
  {
    Fills(c, c.fields.Keys - todo, prefix, skip, base, vars)
  }

  lemma NothingVisited(c: Json, prefix: seq<string>, skip: set<string>, base: map<string, Var>)
    requires c.Obj?
    ensures FillsBut(c, c.fields.Keys, prefix, skip, base, base)
  {
  }

  lemma AllVisited(c: Json, prefix: seq<string>, skip: set<string>, base: map<string, Var>, vars: map<string, Var>)
    requires c.Obj? && FillsBut(c, {}, prefix, skip, base, vars)
    ensures Fills(c, c.fields.Keys, prefix, skip, base, vars)
  {
    assert c.fields.Keys - {} == c.fields.Keys;
  }

  lemma FillOne(c: Json, todo: set<string>, prefix: seq<string>, skip: set<string>,
                base: map<string, Var>, mid: map<string, Var>, k: string, vars: map<string, Var>)
    requires c.Obj? && k in c.fields && k in todo
    requires FillsBut(c, todo, prefix, skip, base, mid) && Visits(c, k, prefix, skip, mid, vars)
    ensures FillsBut(c, todo - {k}, prefix, skip, base, vars)
  {
    assert c.fields.Keys - (todo - {k}) - {k} == c.fields.Keys - todo;
  }

  // ---------------------------------------------------------------- what every outcome holds

  lemma {:induction false} FilledIsCollected(c: Json, done: set<string>, prefix: seq<string>, skip: set<string>,
                                             base: map<string, Var>, vars: map<string, Var>)
    requires c.Obj? && done <= c.fields.Keys && Fills(c, done, prefix, skip, base, vars)
    ensures Collected(c, done, prefix, skip, base, vars)
    decreases c, |done|
  {
    if done != {} {
      var k, mid :| k in done && Fills(c, done - {k}, prefix, skip, base, mid) && Visits(c, k, prefix, skip, mid, vars);
      FilledIsCollected(c, done - {k}, prefix, skip, base, mid);
      var v, here := c.fields[k], prefix + [k];
      if v.Obj? && Join(here) !in skip {
        FilledIsCollected(v, v.fields.Keys, here, skip, mid, vars);
        CollectBelow(c, done - {k}, prefix, skip, base, mid, k, vars);
      } else {
        CollectLeaf(c, done - {k}, prefix, skip, base, mid, k, Recorded(v));
      }
      assert done - {k} + {k} == done;
    }
  }

  lemma VarsCollected(tree: Fields, skip: set<string>, vars: map<string, Var>)
    requires IsVars(tree, skip, vars)
    ensures Collected(Obj(tree), tree.Keys, [], skip, map[], vars)
  {
    FilledIsCollected(Obj(tree), tree.Keys, [], skip, map[], vars);
  }

  lemma CollectLeaf(c: Json, done: set<string>, prefix: seq<string>, skip: set<string>,
                    base: map<string, Var>, vars: map<string, Var>, k: string, x: Var)
    requires c.Obj? && k in c.fields && Collected(c, done, prefix, skip, base, vars)
    requires !c.fields[k].Obj? || Join(prefix + [k]) in skip
    requires x == Recorded(c.fields[k])
    ensures Collected(c, done + {k}, prefix, skip, base, vars[Join(prefix + [k]) := x])
  {
    assert LeafAt(c, prefix, skip, [k], x);
    forall p, y | LeafAt(c, prefix, skip, p, y) && p[0] == k ensures p == [k] { }
  }

  lemma CollectBelow(c: Json, done: set<string>, prefix: seq<string>, skip: set<string>, base: map<string, Var>,
                     mid: map<string, Var>, k: string, vars: map<string, Var>)
    requires c.Obj? && k in c.fields && Collected(c, done, prefix, skip, base, mid)
    requires var v := c.fields[k];
             v.Obj? && Join(prefix + [k]) !in skip
             && Collected(v, v.fields.Keys, prefix + [k], skip, mid, vars)
    ensures Collected(c, done + {k}, prefix, skip, base, vars)
  {
    var v, here := c.fields[k], prefix + [k];
    forall p, x | LeafAt(c, prefix, skip, p, x) && p[0] in done + {k} ensures Join(prefix + p) in vars {
      if p[0] == k {
        assert here + p[1..] == prefix + p;
        assert LeafAt(v, here, skip, p[1..], x);
      }
    }
    forall q | q in vars ensures (q in base && vars[q] == base[q]) || FromLeaf(c, prefix, skip, q, vars[q]) {
      if FromLeaf(v, here, skip, q, vars[q]) {
        var p :| LeafAt(v, here, skip, p, vars[q]) && q == Join(here + p);
        var p' := [k] + p;
        assert p'[1..] == p && prefix + p' == here + p;
        assert LeafAt(c, prefix, skip, p', vars[q]);
      }
    }
  }
}
