/** EventDB.verifyEventReadyToPost and EventTypeDB.PostData's precheck, and what the
    validator and the store's strict schema together amount to. */
module EventValidator {
  import opened Json
  import opened DottedNames
  import opened ConditionTrees
  import opened MappingCompiler
  import opened Flattening

  // ---------------------------------------------------------------- the validator

  datatype Verdict =
    | Ready
    | NotFound(missing: set<string>)
    | Extra(extra: set<string>)
    | ArrayInScalarField(key: string)
    | ScalarInArrayField(key: string)

  /** The variables whose objects are not entered: those of a geographic type. */
  function GeoKeys(mappingVars: map<string, Var>): set<string> {
    set k | k in mappingVars && IsGeoVar(mappingVars[k])
  }

  predicate IsGeoVar(x: Var) {
    x.Value? && x.v.Str? && IsGeoType(x.v.s)
  }

  predicate IsArrayVar(x: Var) {
    x.Value? && IsValidArrayTypeMapping(x.v)
  }

  /** What the validator checks: as many variables as were declared, and arrays in
      exactly those declared ones that are typed as arrays. */
  ghost predicate Agree(mappingVars: map<string, Var>, dataVars: map<string, Var>) {
    && |mappingVars| == |dataVars|
    && forall k | k in mappingVars && k in dataVars :: IsArrayVar(mappingVars[k]) == dataVars[k].IsArray()
  }

  /** The outcomes that iteration orders allow for the two flattened trees. */
  ghost predicate Flattened(mapping: Fields, data: Fields, mv: map<string, Var>, dv: map<string, Var>) {
    IsVars(mapping, {}, mv) && IsVars(data, GeoKeys(mv), dv)
  }

  method VerifyEventReadyToPost(mapping: Fields, data: Fields) returns (r: Verdict)
    ensures exists mv, dv :: Flattened(mapping, data, mv, dv) && (r.Ready? <==> Agree(mv, dv))
  {
    var mv := GetVarsFromStructSkip(mapping, {});
    var dv := GetVarsFromStructSkip(data, GeoKeys(mv));
    r := CompareVars(mv, dv);
    assert Flattened(mapping, data, mv, dv) && (r.Ready? <==> Agree(mv, dv));
  }

  method CompareVars(mv: map<string, Var>, dv: map<string, Var>) returns (r: Verdict)
    ensures r.Ready? <==> Agree(mv, dv)
    ensures r.NotFound? ==> |mv| > |dv| && r.missing == mv.Keys - dv.Keys
    ensures r.Extra? ==> |mv| < |dv| && r.extra == dv.Keys - mv.Keys
    ensures r.ArrayInScalarField? ==> r.key in mv && r.key in dv && !IsArrayVar(mv[r.key]) && dv[r.key].IsArray()
    ensures r.ScalarInArrayField? ==> r.key in mv && r.key in dv && IsArrayVar(mv[r.key]) && !dv[r.key].IsArray()
  {
    if |mv| > |dv| {
      return NotFound(mv.Keys - dv.Keys);
    } else if |mv| < |dv| {
      return Extra(dv.Keys - mv.Keys);
    }
    var todo := mv.Keys;
    while todo != {}
      invariant todo <= mv.Keys
      invariant forall k | k in mv && k !in todo && k in dv :: IsArrayVar(mv[k]) == dv[k].IsArray()
      decreases |todo|
    {
      var k :| k in todo;
      var others := dv.Keys;
      while others != {}
        invariant others <= dv.Keys
        invariant k in dv ==> k in others
        decreases |others|
      {
        var k2 :| k2 in others;
        if k2 == k {
          if !IsArrayVar(mv[k]) {
            if dv[k2].IsArray() { return ArrayInScalarField(k); }
          } else {
            if !dv[k2].IsArray() { return ScalarInArrayField(k); }
          }
          break;
        }
        others := others - {k2};
      }
      todo := todo - {k};
    }
    r := Ready;
  }

  /** The loop of EventTypeDB.PostData over the leaves of a mapping. */
  method LeafTypesAreValid(mapping: Fields) returns (ok: bool)
    ensures exists vars :: IsVars(mapping, {}, vars) && (ok <==> AllTypes(vars))
  {
    var vars := GetVarsFromStructSkip(mapping, {});
    ok := true;
    var todo := vars.Keys;
    while todo != {}
      invariant todo <= vars.Keys && ok
      invariant forall k | k in vars && k !in todo :: IsTypeVar(vars[k])
      decreases |todo|
    {
      var k :| k in todo;
      if !IsTypeVar(vars[k]) {
        ok := false;
        break;
      }
      todo := todo - {k};
    }
    assert IsVars(mapping, {}, vars) && (ok <==> AllTypes(vars));
  }

  predicate IsTypeVar(x: Var) {
    x.Value? && IsValidMappingType(x.v)
  }

  ghost predicate AllTypes(vars: map<string, Var>) {
    forall k | k in vars :: IsTypeVar(vars[k])
  }

  // ---------------------------------------------------------------- paths of a mapping

  /** The leaf at path p of the mapping m is typ. */
  ghost predicate Declares(m: Json, p: seq<string>, typ: Json)
    decreases |p|
  {
    && m.Obj? && |p| >= 1 && p[0] in m.fields
    && if m.fields[p[0]].Obj? then Declares(m.fields[p[0]], p[1..], typ) else |p| == 1 && m.fields[p[0]] == typ
  }

  lemma {:induction false} DeclaredLeaf(m: Json, prefix: seq<string>, p: seq<string>, x: Var)
    ensures LeafAt(m, prefix, {}, p, x) <==> x.Value? && Declares(m, p, x.v)
    decreases |p|
  {
    if m.Obj? && |p| >= 1 && p[0] in m.fields && m.fields[p[0]].Obj? {
      DeclaredLeaf(m.fields[p[0]], prefix + [p[0]], p[1..], x);
    }
  }

  /** The path leads to a node of the mapping. */
  ghost predicate NodeAt(m: Json, p: seq<string>) {
    ObjectAt(m, p) || exists t :: Declares(m, p, t)
  }

  lemma {:induction false} DeclaredOnce(m: Json, p: seq<string>, t: Json, u: Json)
    requires Declares(m, p, t) && Declares(m, p, u)
    ensures t == u
    decreases |p|
  {
    if m.fields[p[0]].Obj? { DeclaredOnce(m.fields[p[0]], p[1..], t, u); }
  }

  /** No two leaves have the same dotted path. */
  ghost predicate LeavesApart(m: Json) {
    forall p, q, t, u | Declares(m, p, t) && Declares(m, q, u) && Join(p) == Join(q) :: p == q
  }

  /** The path leads to an object of the mapping. */
  ghost predicate ObjectAt(m: Json, p: seq<string>)
    decreases |p|
  {
    && m.Obj? && |p| >= 1 && p[0] in m.fields && m.fields[p[0]].Obj?
    && (|p| == 1 || ObjectAt(m.fields[p[0]], p[1..]))
  }

  /** No leaf of a geographic type has the dotted path of an object. */
  ghost predicate GeoApart(m: Json) {
    forall p, q | GeoAt(m, p) && ObjectAt(m, q) :: Join(p) != Join(q)
  }

  /** What a caller can check of a mapping: its dotted paths tell its fields apart. */
  ghost predicate Unambiguous(m: Json) {
    LeavesApart(m) && GeoApart(m)
  }

  lemma {:induction false} DotFreePath(m: Json, p: seq<string>)
    requires AllKeys(DotFree, m) && NodeAt(m, p)
    ensures |p| >= 1 && Split(Join(p)) == p
    decreases |p|
  {
    DotFreeParts(m, p);
    SplitJoin(p);
  }

  lemma {:induction false} DotFreeParts(m: Json, p: seq<string>)
    requires AllKeys(DotFree, m) && NodeAt(m, p)
    ensures |p| >= 1 && Components(p)
    decreases |p|
  {
    if |p| > 1 {
      assert NodeAt(m.fields[p[0]], p[1..]) by {
        if !ObjectAt(m, p) {
          var t :| Declares(m, p, t);
          assert Declares(m.fields[p[0]], p[1..], t);
        }
      }
      DotFreeParts(m.fields[p[0]], p[1..]);
      assert forall i | 1 <= i < |p| :: p[i] == p[1..][i - 1];
    }
  }

  /** In particular a mapping without dots in its keys is unambiguous. */
  lemma DotFreeIsUnambiguous(m: Json)
    requires AllKeys(DotFree, m)
    ensures Unambiguous(m)
  {
    forall p, q | NodeAt(m, p) && NodeAt(m, q) && |p| >= 1 && |q| >= 1 && Join(p) == Join(q) ensures p == q {
      DotFreePath(m, p);
      DotFreePath(m, q);
    }
    forall p | GeoAt(m, p) ensures NodeAt(m, p) && !ObjectAt(m, p) {
      GeoIsDeclared(m, p);
      GeoIsNoObject(m, p);
    }
  }

  lemma {:induction false} GeoIsNoObject(m: Json, p: seq<string>)
    requires GeoAt(m, p)
    ensures !ObjectAt(m, p)
    decreases |p|
  {
    if m.fields[p[0]].Obj? { GeoIsNoObject(m.fields[p[0]], p[1..]); }
  }

  /** If the leaves of a mapping are apart, its variables are its leaves, one each. */
  lemma MappingVars(m: Fields, mv: map<string, Var>, p: seq<string>, t: Json)
    requires LeavesApart(Obj(m)) && IsVars(m, {}, mv) && Declares(Obj(m), p, t)
    ensures Join(p) in mv && mv[Join(p)] == Value(t)
  {
    DeclaredLeaf(Obj(m), [], p, Value(t));
    LeafRecorded(m, {}, mv, p, Value(t));
    var q := VarDeclared(m, mv, Join(p));
    DeclaredOnce(Obj(m), p, t, mv[Join(p)].v);
  }

  /** Every variable of a mapping is one of its leaves. */
  lemma VarDeclared(m: Fields, mv: map<string, Var>, k: string) returns (p: seq<string>)
    requires IsVars(m, {}, mv) && k in mv
    ensures mv[k].Value? && Declares(Obj(m), p, mv[k].v) && k == Join(p)
  {
    p := VarPath(m, {}, mv, k);
    DeclaredLeaf(Obj(m), [], p, mv[k]);
  }

  lemma VarPath(tree: Fields, skip: set<string>, vars: map<string, Var>, k: string) returns (p: seq<string>)
    requires IsVars(tree, skip, vars) && k in vars
    ensures LeafAt(Obj(tree), [], skip, p, vars[k]) && k == Join(p)
  {
    VarsCollected(tree, skip, vars);
    assert FromLeaf(Obj(tree), [], skip, k, vars[k]);
    p :| LeafAt(Obj(tree), [], skip, p, vars[k]) && k == Join([] + p);
    assert [] + p == p;
  }

  lemma LeafRecorded(tree: Fields, skip: set<string>, vars: map<string, Var>, p: seq<string>, x: Var)
    requires IsVars(tree, skip, vars) && LeafAt(Obj(tree), [], skip, p, x)
    ensures Join(p) in vars
  {
    VarsCollected(tree, skip, vars);
    assert [] + p == p;
  }

  // ---------------------------------------------------------------- the source typing

  /** Every declared field that holds anything is there and nothing else is; arrays
      are exactly at the array-typed fields. */
  ghost predicate Typed(parses: Parser, m: Json, v: Json)
    decreases m
  {
    match m
    case Obj(ms) =>
      && v.Obj?
      && (forall k | k in v.fields :: k in ms && Typed(parses, ms[k], v.fields[k]))
      && (forall k | k in ms && k !in v.fields :: Leafless(ms[k]))
    case Str(t) => v.Arr? == IsArrayType(t) && LeafAccepts(parses, ElementType(t), v)
    case _ => false
  }

  ghost predicate Leafless(m: Json)
    decreases m
  {
    m.Obj? && forall k | k in m.fields :: Leafless(m.fields[k])
  }

  /** An object where the mapping has one, and none where it has an array of
      geographic values: what neither the validator nor the store looks at. */
  ghost predicate Shaped(m: Json, v: Json)
    decreases m
  {
    match m
    case Obj(ms) => v.Obj? && forall k | k in v.fields && k in ms :: Shaped(ms[k], v.fields[k])
    case Str(t) => IsArrayType(t) ==> !v.Obj?
    case _ => true
  }

  // ---------------------------------------------------------------- leaves of data and mapping

  predicate IsGeoNode(m: Json) {
    m.Str? && IsGeoType(m.s)
  }

  /** The mapping has a geographic type at the path. */
  predicate GeoAt(m: Json, p: seq<string>)
    decreases |p|
  {
    && m.Obj? && |p| >= 1 && p[0] in m.fields
    && if m.fields[p[0]].Obj? then GeoAt(m.fields[p[0]], p[1..]) else |p| == 1 && IsGeoNode(m.fields[p[0]])
  }

  /** Below prefix, exactly the fields of a geographic type are not entered. */
  ghost predicate SkipsGeo(skip: set<string>, prefix: seq<string>, m: Json) {
    forall p | NodeAt(m, p) :: Join(prefix + p) in skip <==> GeoAt(m, p)
  }

  lemma {:induction false} GeoIsDeclared(m: Json, p: seq<string>)
    ensures forall t | Declares(m, p, t) :: GeoAt(m, p) <==> IsGeoNode(t)
    ensures GeoAt(m, p) ==> exists t :: Declares(m, p, t)
    decreases |p|
  {
    if m.Obj? && |p| >= 1 && p[0] in m.fields {
      var n := m.fields[p[0]];
      if n.Obj? {
        GeoIsDeclared(n, p[1..]);
        forall t | Declares(n, p[1..], t) ensures Declares(m, p, t) { }
      } else if |p| == 1 {
        assert Declares(m, p, n);
      }
    }
  }

  lemma GeoKeysSkip(m: Fields, mv: map<string, Var>)
    requires Unambiguous(Obj(m)) && IsVars(m, {}, mv)
    ensures SkipsGeo(GeoKeys(mv), [], Obj(m))
  {
    forall p | NodeAt(Obj(m), p) ensures Join([] + p) in GeoKeys(mv) <==> GeoAt(Obj(m), p) {
      assert [] + p == p;
      if GeoAt(Obj(m), p) {
        GeoIsDeclared(Obj(m), p);
        var t :| Declares(Obj(m), p, t);
        MappingVars(m, mv, p, t);
      }
      if Join(p) in GeoKeys(mv) {
        var q := VarDeclared(m, mv, Join(p));
        GeoIsDeclared(Obj(m), q);
        assert !ObjectAt(Obj(m), p);
      }
    }
  }

  lemma SkipsBelow(skip: set<string>, prefix: seq<string>, m: Json, k: string)
    requires SkipsGeo(skip, prefix, m) && m.Obj? && k in m.fields
    ensures Join(prefix + [k]) in skip <==> IsGeoNode(m.fields[k])
    ensures m.fields[k].Obj? ==> SkipsGeo(skip, prefix + [k], m.fields[k])
  {
    var n := m.fields[k];
    assert !n.Obj? ==> Declares(m, [k], n);
    assert NodeAt(m, [k]) && (GeoAt(m, [k]) <==> IsGeoNode(n));
    if n.Obj? {
      forall p | NodeAt(n, p) ensures Join(prefix + [k] + p) in skip <==> GeoAt(n, p) {
        assert prefix + [k] + p == prefix + ([k] + p);
        assert ([k] + p)[1..] == p;
        NodeBelow(m, k, p);
      }
    }
  }

  lemma NodeBelow(m: Json, k: string, p: seq<string>)
    requires m.Obj? && k in m.fields && m.fields[k].Obj? && NodeAt(m.fields[k], p)
    ensures NodeAt(m, [k] + p)
  {
    assert ([k] + p)[1..] == p;
    if !ObjectAt(m.fields[k], p) {
      var t :| Declares(m.fields[k], p, t);
      assert Declares(m, [k] + p, t);
    }
  }

  lemma {:induction false} LeafOnce(c: Json, prefix: seq<string>, skip: set<string>, p: seq<string>, x: Var, y: Var)
    requires LeafAt(c, prefix, skip, p, x) && LeafAt(c, prefix, skip, p, y)
    ensures x == y
    decreases |p|
  {
    var v, here := c.fields[p[0]], prefix + [p[0]];
    if v.Obj? && Join(here) !in skip { LeafOnce(v, here, skip, p[1..], x, y); }
  }

  /** A mapping and data below it that the checks apply to. */
  ghost predicate Checked(m: Json, v: Json, prefix: seq<string>, skip: set<string>) {
    m.Obj? && v.Obj? && ValidMapping(m) && SkipsGeo(skip, prefix, m)
  }

  /** Of data that conforms and is shaped like the mapping, every leaf is declared. */
  lemma {:induction false} DataLeafDeclared(parses: Parser, m: Json, v: Json, prefix: seq<string>, skip: set<string>,
                                            p: seq<string>, x: Var) returns (t: Json)
    requires Checked(m, v, prefix, skip) && Conforms(parses, m, v) && Shaped(m, v)
    requires LeafAt(v, prefix, skip, p, x)
    ensures Declares(m, p, t)
    decreases |p|
  {
    var k := p[0];
    var n, w := m.fields[k], v.fields[k];
    SkipsBelow(skip, prefix, m, k);
    if w.Obj? && Join(prefix + [k]) !in skip {
      if !n.Obj? { GeoObject(parses, n, w); }
      t := DataLeafDeclared(parses, n, w, prefix + [k], skip, p[1..], x);
    } else {
      t := n;
    }
  }

  /** An object is accepted at a leaf only if the leaf is of a scalar geographic type. */
  lemma GeoObject(parses: Parser, n: Json, w: Json)
    requires w.Obj? && !n.Obj? && ValidMapping(n) && Conforms(parses, n, w) && Shaped(n, w)
    ensures IsGeoNode(n)
  {
  }

  /** If the data has every declared leaf, arrays agreeing, it is typed. */
  lemma {:induction false} TypedFromLeaves(parses: Parser, m: Json, v: Json, prefix: seq<string>, skip: set<string>)
    requires Checked(m, v, prefix, skip) && Conforms(parses, m, v) && Shaped(m, v)
    requires Covers(m, v, prefix, skip)
    ensures Typed(parses, m, v)
    decreases m
  {
    forall k | k in v.fields ensures k in m.fields && Typed(parses, m.fields[k], v.fields[k]) {
      var n, w := m.fields[k], v.fields[k];
      SkipsBelow(skip, prefix, m, k);
      if n.Obj? {
        forall p, t | Declares(n, p, t) ensures LeafTyped(w, prefix + [k], skip, p, t) {
          assert ([k] + p)[1..] == p;
          assert Declares(m, [k] + p, t);
          var x :| LeafAt(v, prefix, skip, [k] + p, x) && x.IsArray() == IsValidArrayTypeMapping(t);
          assert LeafAt(w, prefix + [k], skip, p, x);
        }
        TypedFromLeaves(parses, n, w, prefix + [k], skip);
      } else {
        assert Declares(m, [k], n);
        var x :| LeafAt(v, prefix, skip, [k], x) && x.IsArray() == IsValidArrayTypeMapping(n);
      }
    }
    forall k | k in m.fields && k !in v.fields ensures Leafless(m.fields[k]) {
      MissingIsLeafless(m, k, v, prefix, skip);
    }
  }

  ghost predicate LeafTyped(v: Json, prefix: seq<string>, skip: set<string>, p: seq<string>, t: Json) {
    exists x :: LeafAt(v, prefix, skip, p, x) && x.IsArray() == IsValidArrayTypeMapping(t)
  }

  /** Every leaf of m is there in v, arrays agreeing. */
  ghost predicate Covers(m: Json, v: Json, prefix: seq<string>, skip: set<string>) {
    forall p, t | Declares(m, p, t) :: LeafTyped(v, prefix, skip, p, t)
  }

  lemma CoveredKey(m: Json, v: Json, prefix: seq<string>, skip: set<string>, p: seq<string>, t: Json)
    requires v.Obj? && Covers(m, v, prefix, skip)
    ensures Declares(m, p, t) ==> p[0] in v.fields
  {
  }

  lemma MissingIsLeafless(m: Json, k: string, v: Json, prefix: seq<string>, skip: set<string>)
    requires m.Obj? && k in m.fields && v.Obj? && k !in v.fields && Covers(m, v, prefix, skip)
    ensures Leafless(m.fields[k])
  {
    var n := m.fields[k];
    CoveredKey(m, v, prefix, skip, [k], n);
    if n.Obj? {
      forall p, t ensures !Declares(n, p, t) {
        CoveredKey(m, v, prefix, skip, [k] + p, t);
        assert ([k] + p)[1..] == p;
      }
      NoLeafIsLeafless(n);
    }
  }

  lemma {:induction false} NoLeafIsLeafless(m: Json)
    requires m.Obj? && forall p, t :: !Declares(m, p, t)
    ensures Leafless(m)
    decreases m
  {
    forall k | k in m.fields ensures Leafless(m.fields[k]) {
      var n := m.fields[k];
      assert !Declares(m, [k], n);
      forall p, t ensures !Declares(n, p, t) {
        assert ([k] + p)[1..] == p;
        assert !Declares(m, [k] + p, t);
      }
      NoLeafIsLeafless(n);
    }
  }

  lemma {:induction false} LeaflessHasNoLeaf(m: Json, p: seq<string>, t: Json)
    requires Leafless(m)
    ensures !Declares(m, p, t)
    decreases |p|
  {
    if |p| >= 1 && p[0] in m.fields { LeaflessHasNoLeaf(m.fields[p[0]], p[1..], t); }
  }

  /** Typed data has every declared leaf, arrays agreeing. */
  lemma {:induction false} LeavesOfTyped(parses: Parser, m: Json, v: Json, prefix: seq<string>, skip: set<string>,
                                         p: seq<string>, t: Json)
    requires Checked(m, v, prefix, skip) && Typed(parses, m, v) && Declares(m, p, t)
    ensures LeafTyped(v, prefix, skip, p, t)
    decreases |p|
  {
    var k := p[0];
    var n := m.fields[k];
    SkipsBelow(skip, prefix, m, k);
    if k !in v.fields {
      if n.Obj? { LeaflessHasNoLeaf(n, p[1..], t); }
    } else {
      var w := v.fields[k];
      if n.Obj? {
        LeavesOfTyped(parses, n, w, prefix + [k], skip, p[1..], t);
        var x :| LeafAt(w, prefix + [k], skip, p[1..], x) && x.IsArray() == IsValidArrayTypeMapping(t);
        assert LeafAt(v, prefix, skip, p, x);
      } else {
        if w.Obj? { GeoObject(parses, n, w); }
        assert LeafAt(v, prefix, skip, p, if w.Obj? then Text(w) else Value(w));
      }
    }
  }

  /** Typed data conforms and is shaped like the mapping. */
  lemma {:induction false} TypedConforms(parses: Parser, m: Json, v: Json)
    requires Typed(parses, m, v)
    ensures Conforms(parses, m, v) && Shaped(m, v)
    decreases m
  {
    if m.Obj? {
      forall k | k in v.fields ensures Conforms(parses, m.fields[k], v.fields[k]) && Shaped(m.fields[k], v.fields[k]) {
        TypedConforms(parses, m.fields[k], v.fields[k]);
      }
    }
  }

  // ---------------------------------------------------------------- the theorem

  /** For every unambiguous mapping, every event and every iteration order:
      the event is typed exactly when the validator passes it, the store accepts its
      wrapped data under the schema compiled from the wrapped mapping, and it is
      shaped like the mapping. */
  lemma ValidatorAndSchemaAreTyping(parses: Parser, typeName: string, m: Fields, d: Fields,
                                    mv: map<string, Var>, dv: map<string, Var>)
    requires ValidMapping(Obj(m)) && Unambiguous(Obj(m)) && Flattened(m, d, mv, dv)
    ensures Typed(parses, Obj(m), Obj(d)) <==>
            Agree(mv, dv) && StoreAccepts(parses, typeName, m, d) && Shaped(Obj(m), Obj(d))
  {
    StoreMeaning(parses, typeName, m, d);
    GeoKeysSkip(m, mv);
    if Typed(parses, Obj(m), Obj(d)) {
      TypedConforms(parses, Obj(m), Obj(d));
      TypedAgrees(parses, m, d, mv, dv);
    }
    if Agree(mv, dv) && Conforms(parses, Obj(m), Obj(d)) && Shaped(Obj(m), Obj(d)) {
      forall p, t | Declares(Obj(m), p, t) ensures LeafTyped(Obj(d), [], GeoKeys(mv), p, t) {
        AgreeingLeaf(parses, m, d, mv, dv, p, t);
      }
      TypedFromLeaves(parses, Obj(m), Obj(d), [], GeoKeys(mv));
    }
  }

  /** The store's check of an event: both the mapping and the data are nested under
      the type's name by then. */
  ghost predicate StoreAccepts(parses: Parser, typeName: string, m: Fields, d: Fields)
    requires ValidMapping(Obj(m))
  {
    SchemaAccepts(parses, Schema(Obj(AddUniqueParams(typeName, m))), Obj(AddUniqueParams(typeName, d)))
  }

  lemma StoreMeaning(parses: Parser, typeName: string, m: Fields, d: Fields)
    requires ValidMapping(Obj(m))
    ensures StoreAccepts(parses, typeName, m, d) == Conforms(parses, Obj(m), Obj(d))
  {
    var wm, wd := Obj(AddUniqueParams(typeName, m)), Obj(AddUniqueParams(typeName, d));
    SchemaMeaning(parses, wm, wd);
    assert Conforms(parses, wm, wd) == Conforms(parses, wm.fields[typeName], wd.fields[typeName]);
  }

  /** A variable of accepted data stands for one declared leaf. */
  lemma DataVar(parses: Parser, m: Fields, d: Fields, mv: map<string, Var>, dv: map<string, Var>, k: string)
    returns (p: seq<string>, t: Json)
    requires ValidMapping(Obj(m)) && Unambiguous(Obj(m)) && Flattened(m, d, mv, dv)
    requires Conforms(parses, Obj(m), Obj(d)) && Shaped(Obj(m), Obj(d)) && k in dv
    ensures Declares(Obj(m), p, t) && k == Join(p) && LeafAt(Obj(d), [], GeoKeys(mv), p, dv[k])
    ensures k in mv && mv[k] == Value(t)
  {
    GeoKeysSkip(m, mv);
    p := VarPath(d, GeoKeys(mv), dv, k);
    t := DataLeafDeclared(parses, Obj(m), Obj(d), [], GeoKeys(mv), p, dv[k]);
    MappingVars(m, mv, p, t);
  }

  lemma AgreeingLeaf(parses: Parser, m: Fields, d: Fields, mv: map<string, Var>, dv: map<string, Var>,
                     p: seq<string>, t: Json)
    requires ValidMapping(Obj(m)) && Unambiguous(Obj(m)) && Flattened(m, d, mv, dv)
    requires Agree(mv, dv) && Conforms(parses, Obj(m), Obj(d)) && Shaped(Obj(m), Obj(d))
    requires Declares(Obj(m), p, t)
    ensures LeafTyped(Obj(d), [], GeoKeys(mv), p, t)
  {
    forall k | k in dv ensures k in mv { var q, u := DataVar(parses, m, d, mv, dv, k); }
    SameSize(dv.Keys, mv.Keys);
    MappingVars(m, mv, p, t);
    var q, u := DataVar(parses, m, d, mv, dv, Join(p));
    assert q == p;
    assert LeafAt(Obj(d), [], GeoKeys(mv), p, dv[Join(p)]);
  }

  lemma SameSize(a: set<string>, b: set<string>)
    requires a <= b && |a| == |b|
    ensures a == b
  {
    assert |b - a| == |b| - |a|;
  }

  lemma TypedVarAgrees(parses: Parser, m: Fields, d: Fields, mv: map<string, Var>, dv: map<string, Var>, k: string)
    requires ValidMapping(Obj(m)) && Unambiguous(Obj(m)) && Flattened(m, d, mv, dv)
    requires Typed(parses, Obj(m), Obj(d)) && Conforms(parses, Obj(m), Obj(d)) && Shaped(Obj(m), Obj(d)) && k in mv
    ensures k in dv && IsArrayVar(mv[k]) == dv[k].IsArray()
  {
    GeoKeysSkip(m, mv);
    var p := VarDeclared(m, mv, k);
    var t := mv[k].v;
    LeavesOfTyped(parses, Obj(m), Obj(d), [], GeoKeys(mv), p, t);
    var x :| LeafAt(Obj(d), [], GeoKeys(mv), p, x) && x.IsArray() == IsValidArrayTypeMapping(t);
    LeafRecorded(d, GeoKeys(mv), dv, p, x);
    var q, u := DataVar(parses, m, d, mv, dv, k);
    assert q == p;
    LeafOnce(Obj(d), [], GeoKeys(mv), p, x, dv[k]);
  }

  lemma TypedAgrees(parses: Parser, m: Fields, d: Fields, mv: map<string, Var>, dv: map<string, Var>)
    requires ValidMapping(Obj(m)) && Unambiguous(Obj(m)) && Flattened(m, d, mv, dv)
    requires Typed(parses, Obj(m), Obj(d)) && Conforms(parses, Obj(m), Obj(d)) && Shaped(Obj(m), Obj(d))
    ensures Agree(mv, dv)
  {
    forall k | k in mv ensures k in dv && IsArrayVar(mv[k]) == dv[k].IsArray() {
      TypedVarAgrees(parses, m, d, mv, dv, k);
    }
    forall k | k in dv ensures k in mv { TypedVarDeclared(parses, m, d, mv, dv, k); }
    AgreeOnSameKeys(mv, dv);
  }

  lemma TypedVarDeclared(parses: Parser, m: Fields, d: Fields, mv: map<string, Var>, dv: map<string, Var>, k: string)
    requires ValidMapping(Obj(m)) && Unambiguous(Obj(m)) && Flattened(m, d, mv, dv)
    requires Conforms(parses, Obj(m), Obj(d)) && Shaped(Obj(m), Obj(d)) && k in dv
    ensures k in mv
  {
    var q, u := DataVar(parses, m, d, mv, dv, k);
  }

  lemma AgreeOnSameKeys(mv: map<string, Var>, dv: map<string, Var>)
    requires forall k | k in mv :: k in dv && IsArrayVar(mv[k]) == dv[k].IsArray()
    requires forall k | k in dv :: k in mv
    ensures Agree(mv, dv)
  {
    assert mv.Keys == dv.Keys;
  }

  /** Some outcome of the checks lets the event into the store. */
  ghost predicate MayBeStored(parses: Parser, typeName: string, m: Fields, d: Fields) {
    && ValidMapping(Obj(m))
    && StoreAccepts(parses, typeName, m, d)
    && exists mv, dv :: Flattened(m, d, mv, dv) && Agree(mv, dv)
  }

  lemma StoredIsTyped(parses: Parser, typeName: string, m: Fields, d: Fields)
    requires MayBeStored(parses, typeName, m, d) && Unambiguous(Obj(m)) && Shaped(Obj(m), Obj(d))
    ensures Typed(parses, Obj(m), Obj(d))
  {
    var mv, dv :| Flattened(m, d, mv, dv) && Agree(mv, dv);
    ValidatorAndSchemaAreTyping(parses, typeName, m, d, mv, dv);
  }

  // ---------------------------------------------------------------- what slips through

  const NESTED_MAPPING: Fields := map["a" := Obj(map["b" := Str("string")])]
  const ARRAY_OF_OBJECTS: Fields := map["a" := Arr([Obj(map["b" := Str("x")])])]

  lemma NestedMappingVars(mv: map<string, Var>)
    requires IsVars(NESTED_MAPPING, {}, mv)
    ensures mv == map[Join(["a", "b"]) := Value(Str("string"))]
  {
    var c, p := Obj(NESTED_MAPPING), ["a", "b"];
    assert p[1..] == ["b"];
    assert LeafAt(c.fields["a"], ["a"], {}, ["b"], Value(Str("string")));
    assert [] + [p[0]] == ["a"];
    assert LeafAt(c, [], {}, p, Value(Str("string")));
    forall q, y | LeafAt(c, [], {}, q, y) ensures q == p {
      assert [] + [q[0]] == ["a"];
      assert LeafAt(c.fields["a"], ["a"], {}, q[1..], y);
      assert q[1..] == ["b"] && q == ["a"] + q[1..];
    }
    OnlyVar(NESTED_MAPPING, {}, mv, p, Value(Str("string")));
  }

  lemma ArrayOfObjectsVars(skip: set<string>, dv: map<string, Var>)
    requires IsVars(ARRAY_OF_OBJECTS, skip, dv)
    ensures dv == map["a" := Value(ARRAY_OF_OBJECTS["a"])]
  {
    var c := Obj(ARRAY_OF_OBJECTS);
    assert LeafAt(c, [], skip, ["a"], Value(c.fields["a"]));
    OnlyVar(ARRAY_OF_OBJECTS, skip, dv, ["a"], Value(c.fields["a"]));
  }

  lemma ArrayOfObjectsConforms(parses: Parser)
    requires parses("string", Str("x"))
    ensures Conforms(parses, Obj(NESTED_MAPPING), Obj(ARRAY_OF_OBJECTS))
  {
    var n := NESTED_MAPPING["a"];
    assert !IsArrayType("string");
    var o := Obj(map["b" := Str("x")]);
    assert Conforms(parses, n.fields["b"], o.fields["b"]);
    assert Conforms(parses, n, o);
    var arr := Arr([o]);
    assert Conforms(parses, n, arr.items[0]);
    assert Conforms(parses, n, arr);
  }

  /** An array of objects where the mapping has one object passes both checks: the
      validator counts it as one variable, the store checks its elements. */
  lemma ArrayOfObjectsSlipsThrough(parses: Parser, typeName: string, mv: map<string, Var>, dv: map<string, Var>)
    requires parses("string", Str("x")) && Flattened(NESTED_MAPPING, ARRAY_OF_OBJECTS, mv, dv)
    ensures ValidMapping(Obj(NESTED_MAPPING))
    ensures Agree(mv, dv) && StoreAccepts(parses, typeName, NESTED_MAPPING, ARRAY_OF_OBJECTS)
    ensures !Typed(parses, Obj(NESTED_MAPPING), Obj(ARRAY_OF_OBJECTS))
  {
    NestedMappingIsValid();
    NestedMappingVars(mv);
    ArrayOfObjectsVars(GeoKeys(mv), dv);
    assert Join(["a", "b"]) == "a" + "." + "b";
    ArrayOfObjectsConforms(parses);
    StoreMeaning(parses, typeName, NESTED_MAPPING, ARRAY_OF_OBJECTS);
  }

  lemma NestedMappingIsValid()
    ensures ValidMapping(Obj(NESTED_MAPPING))
  {
    var n := NESTED_MAPPING["a"];
    assert n == Obj(map["b" := Str("string")]);
    assert IsScalarType("string");
    assert ValidMapping(Str("string"));
    assert ValidMapping(n);
  }

  /** A tree with one leaf has one variable. */
  lemma OnlyVar(tree: Fields, skip: set<string>, vars: map<string, Var>, p: seq<string>, x: Var)
    requires IsVars(tree, skip, vars) && LeafAt(Obj(tree), [], skip, p, x)
    requires forall q, y | LeafAt(Obj(tree), [], skip, q, y) :: q == p
    ensures vars == map[Join(p) := x]
  {
    LeafRecorded(tree, skip, vars, p, x);
    forall k | k in vars ensures k == Join(p) && vars[k] == x {
      var q := VarPath(tree, skip, vars, k);
      LeafOnce(Obj(tree), [], skip, p, vars[k], x);
    }
  }
}
