/** The precheck of a new event type (workflow/EventTypeDB.go) against the compiler: the
    precheck sees one variable per dotted path, the compiler every leaf, and which of
    several leaves with one dotted path the precheck sees depends on the iteration order. */
module Precheck {
  import opened Json
  import opened DottedNames
  import opened MappingCompiler
  import opened Flattening
  import opened EventValidator

  // ---------------------------------------------------------------- outcomes there are

  /** There is an outcome of visiting any keys. */
  lemma {:induction false} SomeOutcome(c: Json, done: set<string>, prefix: seq<string>, skip: set<string>,
                                       base: map<string, Var>)
    returns (vars: map<string, Var>)
    requires c.Obj? && done <= c.fields.Keys
    ensures Fills(c, done, prefix, skip, base, vars)
    decreases c, 1, |done|
  {
    vars := base;
    if done != {} {
      var k :| k in done;
      var mid := SomeOutcome(c, done - {k}, prefix, skip, base);
      vars := SomeVisit(c, k, prefix, skip, mid);
    }
  }

  lemma {:induction false} SomeVisit(c: Json, k: string, prefix: seq<string>, skip: set<string>, mid: map<string, Var>)
    returns (vars: map<string, Var>)
    requires c.Obj? && k in c.fields
    ensures Visits(c, k, prefix, skip, mid, vars)
    decreases c, 0
  {
    var v, here := c.fields[k], prefix + [k];
    if v.Obj? && Join(here) !in skip {
      vars := SomeOutcome(v, v.fields.Keys, here, skip, mid);
    } else {
      vars := mid[Join(here) := Recorded(v)];
    }
  }

  /** Any leaf may be the one that is recorded for its dotted path. */
  lemma {:induction false} LastLeaf(c: Json, prefix: seq<string>, skip: set<string>, p: seq<string>, x: Var,
                                    base: map<string, Var>) returns (vars: map<string, Var>)
    requires LeafAt(c, prefix, skip, p, x)
    ensures Fills(c, c.fields.Keys, prefix, skip, base, vars)
    ensures Join(prefix + p) in vars && vars[Join(prefix + p)] == x
    decreases |p|
  {
    var k := p[0];
    var v, here := c.fields[k], prefix + [k];
    var mid := SomeOutcome(c, c.fields.Keys - {k}, prefix, skip, base);
    if v.Obj? && Join(here) !in skip {
      vars := LastLeaf(v, here, skip, p[1..], x, mid);
      assert here + p[1..] == prefix + p;
    } else {
      vars := mid[Join(here) := Recorded(v)];
      assert p == [k];
    }
    assert Visits(c, k, prefix, skip, mid, vars);
  }

  // ---------------------------------------------------------------- valid mappings

  /** A mapping that compiles passes the precheck in every iteration order. */
  lemma ValidPasses(m: Fields, vars: map<string, Var>)
    requires ValidMapping(Obj(m)) && IsVars(m, {}, vars)
    ensures AllTypes(vars)
  {
    forall k | k in vars ensures IsTypeVar(vars[k]) {
      var p := VarDeclared(m, vars, k);
      ValidLeaf(Obj(m), p, vars[k].v);
    }
  }

  /** For every mapping: it passes the precheck in every iteration order if and only if
      it compiles. */
  lemma PrecheckIsCompilability(m: Fields)
    ensures (forall vars | IsVars(m, {}, vars) :: AllTypes(vars)) <==> ValidMapping(Obj(m))
  {
    if ValidMapping(Obj(m)) {
      forall vars | IsVars(m, {}, vars) ensures AllTypes(vars) { ValidPasses(m, vars); }
    }
    if forall vars | IsVars(m, {}, vars) :: AllTypes(vars) {
      forall p, t | Declares(Obj(m), p, t) ensures IsValidMappingType(t) {
        DeclaredLeaf(Obj(m), [], p, Value(t));
        var vars := LastLeaf(Obj(m), [], {}, p, Value(t), map[]);
        assert IsVars(m, {}, vars) && [] + p == p;
        assert IsTypeVar(vars[Join(p)]);
      }
      ValidFromLeaves(Obj(m));
    }
  }

  lemma {:induction false} ValidLeaf(m: Json, p: seq<string>, t: Json)
    requires ValidMapping(m) && Declares(m, p, t)
    ensures IsValidMappingType(t)
    decreases |p|
  {
    if m.fields[p[0]].Obj? { ValidLeaf(m.fields[p[0]], p[1..], t); }
  }

  lemma {:induction false} ValidFromLeaves(m: Json)
    requires m.Obj? && forall p, t | Declares(m, p, t) :: IsValidMappingType(t)
    ensures ValidMapping(m)
    decreases m
  {
    forall k | k in m.fields ensures ValidMapping(m.fields[k]) {
      if m.fields[k].Obj? {
        forall p, t | Declares(m.fields[k], p, t) ensures IsValidMappingType(t) {
          assert ([k] + p)[1..] == p;
          assert Declares(m, [k] + p, t);
        }
        ValidFromLeaves(m.fields[k]);
      } else {
        assert Declares(m, [k], m.fields[k]);
      }
    }
  }

  // ---------------------------------------------------------------- hidden leaves

  /** The dotted paths of the leaves below the keys in done. */
  ghost function Names(c: Json, done: set<string>, prefix: seq<string>): iset<string>
    requires c.Obj?
  {
    iset n | IsName(c, done, prefix, n)
  }

  ghost predicate IsName(c: Json, done: set<string>, prefix: seq<string>, n: string) {
    exists p, x :: LeafAt(c, prefix, {}, p, x) && p[0] in done && n == Join(prefix + p)
  }

  /** The keys in todo can be visited in such an order that every leaf that is no type
      name has its dotted path in `later` or loses it to a type name visited later. */
  ghost predicate CanHide(c: Json, todo: set<string>, prefix: seq<string>, later: iset<string>)
    requires c.Obj? && todo <= c.fields.Keys
    decreases c, 1, |todo|
  {
    todo == {} || exists k | k in todo ::
      CanHideAt(c, k, prefix, later) && CanHide(c, todo - {k}, prefix, later + Names(c, {k}, prefix))
  }

  ghost predicate CanHideAt(c: Json, k: string, prefix: seq<string>, later: iset<string>)
    requires c.Obj? && k in c.fields
    decreases c, 0
  {
    var v := c.fields[k];
    if v.Obj? then CanHide(v, v.fields.Keys, prefix + [k], later)
    else IsValidMappingType(v) || Join(prefix + [k]) in later
  }

  ghost predicate PassesBut(vars: map<string, Var>, later: iset<string>) {
    forall n | n in vars :: n in later || IsTypeVar(vars[n])
  }

  lemma NamesOfLeaf(c: Json, k: string, prefix: seq<string>)
    requires c.Obj? && k in c.fields && !c.fields[k].Obj?
    ensures Names(c, {k}, prefix) == iset{Join(prefix + [k])}
  {
    assert LeafAt(c, prefix, {}, [k], Value(c.fields[k]));
    forall p, x | LeafAt(c, prefix, {}, p, x) && p[0] in {k} ensures p == [k] { }
  }

  lemma NamesOfTree(c: Json, k: string, prefix: seq<string>)
    requires c.Obj? && k in c.fields && c.fields[k].Obj?
    ensures Names(c, {k}, prefix) == Names(c.fields[k], c.fields[k].fields.Keys, prefix + [k])
  {
    var v := c.fields[k];
    forall p, x | LeafAt(c, prefix, {}, p, x) && p[0] in {k}
      ensures Join(prefix + p) in Names(v, v.fields.Keys, prefix + [k])
    {
      assert LeafAt(v, prefix + [k], {}, p[1..], x) && prefix + [k] + p[1..] == prefix + p;
    }
    forall p, x | LeafAt(v, prefix + [k], {}, p, x) ensures Join(prefix + [k] + p) in Names(c, {k}, prefix) {
      var q := [k] + p;
      assert q[1..] == p && prefix + q == prefix + [k] + p;
      assert LeafAt(c, prefix, {}, q, x);
    }
  }

  lemma NamesSplit(c: Json, done: set<string>, k: string, prefix: seq<string>)
    requires c.Obj? && k in done
    ensures Names(c, done, prefix) == Names(c, {k}, prefix) + Names(c, done - {k}, prefix)
  {
  }

  /** If some order of visits passes, that order hides. */
  lemma {:induction false} PassingHides(c: Json, done: set<string>, prefix: seq<string>, later: iset<string>,
                                        base: map<string, Var>, vars: map<string, Var>)
    requires c.Obj? && done <= c.fields.Keys && Fills(c, done, prefix, {}, base, vars) && PassesBut(vars, later)
    ensures CanHide(c, done, prefix, later) && PassesBut(base, later + Names(c, done, prefix))
    decreases c, 1, |done|
  {
    if done != {} {
      var k, mid :| k in done && Fills(c, done - {k}, prefix, {}, base, mid) && Visits(c, k, prefix, {}, mid, vars);
      PassingVisitHides(c, k, prefix, later, mid, vars);
      PassingHides(c, done - {k}, prefix, later + Names(c, {k}, prefix), base, mid);
      NamesSplit(c, done, k, prefix);
    }
  }

  lemma {:induction false} PassingVisitHides(c: Json, k: string, prefix: seq<string>, later: iset<string>,
                                             mid: map<string, Var>, vars: map<string, Var>)
    requires c.Obj? && k in c.fields && Visits(c, k, prefix, {}, mid, vars) && PassesBut(vars, later)
    ensures CanHideAt(c, k, prefix, later) && PassesBut(mid, later + Names(c, {k}, prefix))
    decreases c, 0
  {
    var v := c.fields[k];
    if v.Obj? {
      PassingHides(v, v.fields.Keys, prefix + [k], later, mid, vars);
      NamesOfTree(c, k, prefix);
    } else {
      NamesOfLeaf(c, k, prefix);
      assert vars[Join(prefix + [k])] == Value(v);
    }
  }

  /** If the leaves can be hidden, some order of visits passes. */
  lemma {:induction false} HidingPasses(c: Json, done: set<string>, prefix: seq<string>, later: iset<string>,
                                        base: map<string, Var>) returns (vars: map<string, Var>)
    requires c.Obj? && done <= c.fields.Keys && CanHide(c, done, prefix, later)
    requires PassesBut(base, later + Names(c, done, prefix))
    ensures Fills(c, done, prefix, {}, base, vars) && PassesBut(vars, later)
    decreases c, 1, |done|
  {
    vars := base;
    if done != {} {
      var k :| k in done && CanHideAt(c, k, prefix, later)
               && CanHide(c, done - {k}, prefix, later + Names(c, {k}, prefix));
      NamesSplit(c, done, k, prefix);
      var mid := HidingPasses(c, done - {k}, prefix, later + Names(c, {k}, prefix), base);
      vars := HidingVisitPasses(c, k, prefix, later, mid);
    }
  }

  lemma {:induction false} HidingVisitPasses(c: Json, k: string, prefix: seq<string>, later: iset<string>,
                                             mid: map<string, Var>) returns (vars: map<string, Var>)
    requires c.Obj? && k in c.fields && CanHideAt(c, k, prefix, later)
    requires PassesBut(mid, later + Names(c, {k}, prefix))
    ensures Visits(c, k, prefix, {}, mid, vars) && PassesBut(vars, later)
    decreases c, 0
  {
    var v := c.fields[k];
    if v.Obj? {
      NamesOfTree(c, k, prefix);
      vars := HidingPasses(v, v.fields.Keys, prefix + [k], later, mid);
    } else {
      NamesOfLeaf(c, k, prefix);
      vars := mid[Join(prefix + [k]) := Value(v)];
    }
  }

  ghost predicate MayPass(m: Fields) {
    exists vars :: IsVars(m, {}, vars) && AllTypes(vars)
  }

  /** For every mapping: some iteration order passes the precheck if and only if the
      leaves that are no type names can be hidden. */
  lemma PrecheckMayPass(m: Fields)
    ensures MayPass(m) <==> CanHide(Obj(m), m.Keys, [], iset{})
  {
    if MayPass(m) {
      var vars: map<string, Var> :| IsVars(m, {}, vars) && AllTypes(vars);
      PassingHides(Obj(m), m.Keys, [], iset{}, map[], vars);
    }
    if CanHide(Obj(m), m.Keys, [], iset{}) {
      var vars := HidingPasses(Obj(m), m.Keys, [], iset{}, map[]);
      assert IsVars(m, {}, vars) && AllTypes(vars);
    }
  }

  /** Then every leaf that is no type name shares its dotted path with one that is. */
  lemma HiddenLeavesShare(m: Fields)
    requires MayPass(m)
    ensures AllShare(Obj(m))
  {
    var vars: map<string, Var> :| IsVars(m, {}, vars) && AllTypes(vars);
    forall p, t | Declares(Obj(m), p, t) && !IsValidMappingType(t) ensures SharesWithType(Obj(m), p) {
      DeclaredLeaf(Obj(m), [], p, Value(t));
      LeafRecorded(m, {}, vars, p, Value(t));
      var q := VarDeclared(m, vars, Join(p));
    }
  }

  // ---------------------------------------------------------------- a mapping that may slip through

  const SLIPPING: Fields := map["a.b" := Str("string"), "a" := Obj(map["b" := Num(5.0)])]

  /** A mapping that does not compile and passes the precheck in some iteration order: it
      is stored as an event type before its compilation fails. */
  lemma UncompilableMaySlip()
    ensures !ValidMapping(Obj(SLIPPING)) && MayPass(SLIPPING)
  {
    var c, sub := Obj(SLIPPING), Obj(map["b" := Num(5.0)]);
    assert SLIPPING.Keys == {"a.b", "a"} && SLIPPING["a"] == sub && SLIPPING["a.b"] == Str("string");
    assert !ValidMapping(sub.fields["b"]) && !ValidMapping(sub);
    assert [] + ["a.b"] == ["a.b"] && [] + ["a"] == ["a"] && ["a"] + ["b"] == ["a", "b"];
    assert Join(["a", "b"]) == "a" + "." + "b" == "a.b";
    NamesOfLeaf(c, "a.b", []);
    assert IsScalarType("string");
    var later := iset{} + Names(c, {"a.b"}, []);
    HidesLast(sub, "b", ["a"], later);
    assert CanHideAt(c, "a", [], later);
    assert {"a"} - {"a"} == {};
    assert CanHide(c, {"a"}, [], later) by { assert CanHide(c, {"a"} - {"a"}, [], later + Names(c, {"a"}, [])); }
    assert {"a.b", "a"} - {"a.b"} == {"a"};
    assert CanHideAt(c, "a.b", [], iset{});
    assert CanHide(c, SLIPPING.Keys, [], iset{});
    PrecheckMayPass(SLIPPING);
  }

  /** An object with one leaf, its dotted path written later. */
  lemma HidesLast(c: Json, k: string, prefix: seq<string>, later: iset<string>)
    requires c.Obj? && c.fields.Keys == {k} && !c.fields[k].Obj? && Join(prefix + [k]) in later
    ensures CanHide(c, c.fields.Keys, prefix, later)
  {
    assert c.fields.Keys - {k} == {};
    assert CanHideAt(c, k, prefix, later);
    assert CanHide(c, c.fields.Keys - {k}, prefix, later + Names(c, {k}, prefix));
  }

  /** Sharing its dotted path with a type name is not enough for a leaf to be hidden: two
      objects that would each have to be visited after the other. */
  lemma NeitherLast(c: Json, k: string, l: string)
    requires c.Obj? && c.fields.Keys == {k, l} && k != l
    requires !CanHideAt(c, k, [], iset{}) && !CanHideAt(c, l, [], iset{})
    ensures !MayPass(c.fields)
  {
    PrecheckMayPass(c.fields);
    assert k in c.fields.Keys;
  }

  function Twice(x: Json, y: Json): Fields {
    map["c" := x, "d" := y]
  }

  const CROSSED: Fields := map[
    "a" := Obj(map["b" := Inner()]),
    "a.b" := Outer()]

  function Inner(): Json {
    Obj(Twice(Num(5.0), Str("string")))
  }

  function Outer(): Json {
    Obj(Twice(Str("string"), Num(5.0)))
  }

  /** Some type name has the dotted path of p. */
  ghost predicate SharesWithType(m: Json, p: seq<string>)
    requires |p| >= 1
  {
    exists q, u :: Declares(m, q, u) && Join(q) == Join(p) && IsValidMappingType(u)
  }

  ghost predicate AllShare(m: Json) {
    forall p, t | Declares(m, p, t) && !IsValidMappingType(t) :: SharesWithType(m, p)
  }

  /** Every leaf of this mapping that is no type name shares its dotted path with one that
      is, and yet no iteration order passes. */
  lemma SharingIsNotEnough()
    ensures AllShare(Obj(CROSSED)) && !MayPass(CROSSED)
  {
    CrossedCannotHide();
    forall p, t | Declares(Obj(CROSSED), p, t) && !IsValidMappingType(t) ensures SharesWithType(Obj(CROSSED), p) {
      var q := CrossedPartner(p, t);
      assert IsScalarType("string");
    }
  }

  lemma CrossedCannotHide()
    ensures !MayPass(CROSSED)
  {
    var c := Obj(CROSSED);
    assert CROSSED.Keys == {"a", "a.b"};
    InnerShows();
    OuterShows();
    assert [] + ["a"] == ["a"] && [] + ["a.b"] == ["a.b"];
    assert !CanHideAt(c, "a", [], iset{}) && !CanHideAt(c, "a.b", [], iset{});
    NeitherLast(c, "a", "a.b");
  }

  lemma InnerShows()
    ensures var left := Obj(map["b" := Inner()]); !CanHide(left, left.fields.Keys, ["a"], iset{})
  {
    var left := Obj(map["b" := Inner()]);
    assert ["a"] + ["b"] == ["a", "b"];
    TwiceApart(["a", "b"]);
    BadLeafShows(Inner(), "c", ["a", "b"]);
    assert left.fields.Keys == {"b"} && left.fields["b"] == Inner();
    assert !CanHideAt(left, "b", ["a"], iset{});
  }

  lemma OuterShows()
    ensures !CanHide(Outer(), Outer().fields.Keys, ["a.b"], iset{})
  {
    TwiceApart(["a.b"]);
    BadLeafShows(Outer(), "d", ["a.b"]);
  }

  /** The two leaves that are no type names, and those that share their paths. */
  lemma CrossedPartner(p: seq<string>, t: Json) returns (q: seq<string>)
    requires Declares(Obj(CROSSED), p, t) && !IsValidMappingType(t)
    ensures Declares(Obj(CROSSED), q, Str("string")) && Join(q) == Join(p)
  {
    var c, left := Obj(CROSSED), Obj(map["b" := Inner()]);
    assert c.fields["a"] == left && c.fields["a.b"] == Outer() && c.fields.Keys == {"a", "a.b"};
    assert IsScalarType("string");
    if p[0] == "a" {
      assert Declares(left, p[1..], t);
      assert Declares(Inner(), p[1..][1..], t);
      DeclaredTwice(Num(5.0), Str("string"), p[1..][1..], t);
      assert p == ["a", "b", "c"];
      q := ["a.b", "c"];
      assert q[1..] == ["c"] && Declares(Outer(), ["c"], Str("string"));
    } else {
      assert Declares(Outer(), p[1..], t);
      DeclaredTwice(Str("string"), Num(5.0), p[1..], t);
      assert p == ["a.b", "d"];
      q := ["a", "b", "d"];
      assert q[1..] == ["b", "d"] && ["b", "d"][1..] == ["d"];
      assert Declares(Inner(), ["d"], Str("string"));
      assert Declares(left, ["b", "d"], Str("string"));
    }
    SamePaths("c");
    SamePaths("d");
  }

  lemma DeclaredTwice(x: Json, y: Json, p: seq<string>, t: Json)
    requires !x.Obj? && !y.Obj? && Declares(Obj(Twice(x, y)), p, t)
    ensures (p == ["c"] && t == x) || (p == ["d"] && t == y)
  {
    assert Twice(x, y).Keys == {"c", "d"};
  }

  lemma SamePaths(k: string)
    ensures Join(["a", "b", k]) == Join(["a.b", k])
  {
    JoinSnoc(["a", "b"], k);
    JoinSnoc(["a.b"], k);
    assert ["a", "b"] + [k] == ["a", "b", k] && ["a.b"] + [k] == ["a.b", k];
    assert ["a", "b"][1..] == ["b"];
    assert Join(["a", "b"]) == "a" + "." + "b" == "a.b";
  }

  lemma TwiceApart(prefix: seq<string>)
    requires |prefix| >= 1
    ensures Join(prefix + ["c"]) != Join(prefix + ["d"])
  {
    JoinSnoc(prefix, "c");
    JoinSnoc(prefix, "d");
    assert (Join(prefix) + "." + "c")[|Join(prefix)| + 1] == 'c';
  }

  lemma {:induction false} JoinSnoc(prefix: seq<string>, k: string)
    requires |prefix| >= 1
    ensures Join(prefix + [k]) == Join(prefix) + "." + k
    decreases |prefix|
  {
    if |prefix| > 1 {
      assert (prefix + [k])[1..] == prefix[1..] + [k];
      JoinSnoc(prefix[1..], k);
    } else {
      assert (prefix + [k])[1..] == [k];
    }
  }

  /** With nothing visited later, a leaf that is no type name shows. */
  lemma BadLeafShows(c: Json, k: string, prefix: seq<string>)
    requires c.Obj? && k in c.fields && !c.fields[k].Obj? && !IsValidMappingType(c.fields[k])
    requires forall l | l in c.fields && l != k :: Join(prefix + [l]) != Join(prefix + [k]) && !c.fields[l].Obj?
    ensures !CanHide(c, c.fields.Keys, prefix, iset{})
  {
    BadLeafShowsAmong(c, c.fields.Keys, k, prefix, iset{});
  }

  lemma {:induction false} BadLeafShowsAmong(c: Json, todo: set<string>, k: string, prefix: seq<string>,
                                             later: iset<string>)
    requires c.Obj? && k in todo && todo <= c.fields.Keys && !c.fields[k].Obj? && !IsValidMappingType(c.fields[k])
    requires forall l | l in c.fields && l != k :: Join(prefix + [l]) != Join(prefix + [k]) && !c.fields[l].Obj?
    requires Join(prefix + [k]) !in later
    ensures !CanHide(c, todo, prefix, later)
    decreases |todo|
  {
    forall l | l in todo
      ensures !(CanHideAt(c, l, prefix, later) && CanHide(c, todo - {l}, prefix, later + Names(c, {l}, prefix)))
    {
      if l != k {
        NamesOfLeaf(c, l, prefix);
        BadLeafShowsAmong(c, todo - {l}, k, prefix, later + Names(c, {l}, prefix));
      }
    }
  }
}
