/** Without unambiguous dotted paths the validator and the schema are not the typing: for
    every ambiguous mapping there is an event on which they differ. */
module AmbiguousMappings {
  import opened Json
  import opened DottedNames
  import opened MappingCompiler
  import opened Flattening
  import opened EventValidator
  import Precheck

  // ---------------------------------------------------------------- events made from a mapping

  /** A value every store takes: null, or no values where an array is declared. */
  function Blank(t: string): Json {
    if IsArrayType(t) then Arr([]) else Null
  }

  /** The event that has the mapping's objects, and of its leaves those whose path is kept. */
  ghost function Data(m: Json, at: seq<string>, keep: iset<seq<string>>): Json
    decreases m
  {
    match m
    case Obj(ms) => Obj(map k | k in ms && (ms[k].Obj? || at + [k] in keep) :: Data(ms[k], at + [k], keep))
    case Str(t) => Blank(t)
    case _ => Null
  }

  lemma DataField(m: Json, at: seq<string>, keep: iset<seq<string>>, k: string)
    requires m.Obj?
    ensures var v := Data(m, at, keep);
            && v.Obj? && (k in v.fields <==> k in m.fields && (m.fields[k].Obj? || at + [k] in keep))
            && (k in v.fields ==> v.fields[k] == Data(m.fields[k], at + [k], keep))
  {
  }

  lemma {:induction false} DataConforms(parses: Parser, m: Json, at: seq<string>, keep: iset<seq<string>>)
    requires ValidMapping(m)
    ensures Conforms(parses, m, Data(m, at, keep)) && Shaped(m, Data(m, at, keep))
    ensures Data(m, at, keep).Obj? == m.Obj?
    decreases m
  {
    if m.Obj? {
      var v := Data(m, at, keep);
      forall k | k in v.fields ensures Conforms(parses, m.fields[k], v.fields[k]) && Shaped(m.fields[k], v.fields[k]) {
        DataConforms(parses, m.fields[k], at + [k], keep);
      }
    }
  }

  ghost const EVERYTHING: iset<seq<string>> := iset p: seq<string> | true

  lemma {:induction false} FullDataTyped(parses: Parser, m: Json, at: seq<string>)
    requires ValidMapping(m)
    ensures Typed(parses, m, Data(m, at, EVERYTHING))
    decreases m
  {
    if m.Obj? {
      forall k | k in m.fields ensures Typed(parses, m.fields[k], Data(m.fields[k], at + [k], EVERYTHING)) {
        FullDataTyped(parses, m.fields[k], at + [k]);
      }
    }
  }

  /** An event that lacks a declared leaf is not typed. */
  lemma {:induction false} LackingNotTyped(parses: Parser, m: Json, at: seq<string>, keep: iset<seq<string>>,
                                           p: seq<string>, t: Json)
    requires ValidMapping(m) && Declares(m, p, t) && at + p !in keep
    ensures !Typed(parses, m, Data(m, at, keep))
    decreases |p|
  {
    var k := p[0];
    var v := Data(m, at, keep);
    DataField(m, at, keep, k);
    if m.fields[k].Obj? {
      assert at + [k] + p[1..] == at + p;
      LackingNotTyped(parses, m.fields[k], at + [k], keep, p[1..], t);
      assert v.fields[k] == Data(m.fields[k], at + [k], keep);
    } else {
      assert p == [k] && k !in v.fields;
    }
  }

  // ---------------------------------------------------------------- their leaves

  /** A variable of such an event is a kept leaf of the mapping, or the text of an object
      that is not entered. */
  lemma {:induction false} DataLeaf(m: Json, at: seq<string>, keep: iset<seq<string>>, skip: set<string>,
                                    p: seq<string>, x: Var)
    requires m.Obj? && ValidMapping(m) && LeafAt(Data(m, at, keep), at, skip, p, x)
    ensures x.Value? ==> at + p in keep && exists t: string :: Declares(m, p, Str(t)) && x == Value(Blank(t))
    ensures x.Text? ==> ObjectAt(m, p) && Join(at + p) in skip
    decreases |p|
  {
    var k := p[0];
    DataField(m, at, keep, k);
    var n := m.fields[k];
    if n.Obj? && Join(at + [k]) !in skip {
      DataLeaf(n, at + [k], keep, skip, p[1..], x);
      assert at + [k] + p[1..] == at + p;
      if x.Value? {
        var t: string :| Declares(n, p[1..], Str(t)) && x == Value(Blank(t));
        assert Declares(m, p, Str(t));
      }
    } else {
      assert p == [k];
      if !n.Obj? { assert Declares(m, p, Str(n.s)); }
    }
  }

  /** No object below `at` is left out. */
  ghost predicate EntersAll(m: Json, at: seq<string>, skip: set<string>) {
    forall q | ObjectAt(m, q) :: Join(at + q) !in skip
  }

  lemma EntersBelow(m: Json, at: seq<string>, skip: set<string>, k: string)
    requires EntersAll(m, at, skip) && m.Obj? && k in m.fields && m.fields[k].Obj?
    ensures Join(at + [k]) !in skip && EntersAll(m.fields[k], at + [k], skip)
  {
    assert ObjectAt(m, [k]);
    forall q | ObjectAt(m.fields[k], q) ensures Join(at + [k] + q) !in skip {
      assert at + [k] + q == at + ([k] + q) && ([k] + q)[1..] == q;
      assert ObjectAt(m, [k] + q);
    }
  }

  /** A kept leaf is recorded if no object is left out. */
  lemma {:induction false} KeptLeaf(m: Json, at: seq<string>, keep: iset<seq<string>>, skip: set<string>,
                                    p: seq<string>, t: Json)
    requires ValidMapping(m) && Declares(m, p, t) && at + p in keep && EntersAll(m, at, skip)
    ensures t.Str? && LeafAt(Data(m, at, keep), at, skip, p, Value(Blank(t.s)))
    decreases |p|
  {
    var k := p[0];
    var n := m.fields[k];
    if n.Obj? {
      EntersBelow(m, at, skip, k);
      assert at + [k] + p[1..] == at + p;
      KeptLeaf(n, at + [k], keep, skip, p[1..], t);
      LeafBelow(m, at, keep, skip, p, Value(Blank(t.s)));
    } else {
      assert p == [k];
      LeafHere(m, at, keep, skip, k, t);
    }
  }

  lemma LeafHere(m: Json, at: seq<string>, keep: iset<seq<string>>, skip: set<string>, k: string, t: Json)
    requires ValidMapping(m) && m.Obj? && k in m.fields && m.fields[k] == t && !t.Obj? && at + [k] in keep
    ensures t.Str? && LeafAt(Data(m, at, keep), at, skip, [k], Value(Blank(t.s)))
  {
    DataField(m, at, keep, k);
    assert ValidMapping(t);
    assert Data(m, at, keep).fields[k] == Blank(t.s);
  }

  lemma LeafBelow(m: Json, at: seq<string>, keep: iset<seq<string>>, skip: set<string>, p: seq<string>, x: Var)
    requires m.Obj? && |p| >= 1 && p[0] in m.fields && m.fields[p[0]].Obj? && Join(at + [p[0]]) !in skip
    requires LeafAt(Data(m.fields[p[0]], at + [p[0]], keep), at + [p[0]], skip, p[1..], x)
    ensures LeafAt(Data(m, at, keep), at, skip, p, x)
  {
    DataField(m, at, keep, p[0]);
  }

  /** The leaves recorded of an event that keeps more, but for those it alone keeps. */
  lemma {:induction false} LeafInBoth(m: Json, at: seq<string>, keep: iset<seq<string>>, keep': iset<seq<string>>,
                                      skip: set<string>, p: seq<string>, x: Var) returns (y: Var)
    requires m.Obj? && ValidMapping(m) && LeafAt(Data(m, at, keep), at, skip, p, x)
    requires x.Value? && at + p in keep ==> at + p in keep'
    ensures LeafAt(Data(m, at, keep'), at, skip, p, y) && y.IsArray() == x.IsArray() && y.Value? == x.Value?
    decreases |p|
  {
    var k := p[0];
    DataField(m, at, keep, k);
    var n := m.fields[k];
    if n.Obj? && Join(at + [k]) !in skip {
      assert at + [k] + p[1..] == at + p;
      DataField(m, at, keep', k);
      y := LeafInBoth(n, at + [k], keep, keep', skip, p[1..], x);
    } else {
      assert p == [k];
      DataField(m, at, keep', k);
      y := Recorded(Data(n, at + [k], keep'));
    }
  }

  /** An object that is left out is recorded as text if no object above it is left out. */
  lemma {:induction false} LeftOutObject(m: Json, at: seq<string>, keep: iset<seq<string>>, skip: set<string>,
                                         q: seq<string>)
    returns (x: Var)
    requires ObjectAt(m, q) && Join(at + q) in skip
    requires forall i | 1 <= i < |q| :: Join(at + q[..i]) !in skip
    ensures LeafAt(Data(m, at, keep), at, skip, q, x) && x.Text?
    decreases |q|
  {
    var k := q[0];
    DataField(m, at, keep, k);
    var n := m.fields[k];
    if |q| == 1 {
      assert q == [k];
      x := Text(Data(n, at + [k], keep));
    } else {
      assert q[..1] == [k];
      assert at + [k] + q[1..] == at + q;
      forall i | 1 <= i < |q[1..]| ensures Join(at + [k] + q[1..][..i]) !in skip {
        assert at + [k] + q[1..][..i] == at + q[..i + 1];
      }
      x := LeftOutObject(n, at + [k], keep, skip, q[1..]);
    }
  }

  // ---------------------------------------------------------------- two leaves with one dotted path

  /** The checks and the typing agree on the event, in the given outcome. */
  ghost predicate Sound(parses: Parser, typeName: string, m: Fields, d: Fields, mv: map<string, Var>,
                        dv: map<string, Var>)
    requires ValidMapping(Obj(m))
  {
    Typed(parses, Obj(m), Obj(d)) <==> Agree(mv, dv) && StoreAccepts(parses, typeName, m, d) && Shaped(Obj(m), Obj(d))
  }

  lemma HasLeaf(m: Fields, mv: map<string, Var>, k: string)
    requires IsVars(m, {}, mv) && k in mv
    ensures exists p :: mv[k].Value? && Declares(Obj(m), p, mv[k].v) && k == Join(p)
  {
    var p := VarDeclared(m, mv, k);
  }

  /** The leaf that is the variable. */
  ghost function Winner(m: Fields, mv: map<string, Var>, k: string): (p: seq<string>)
    requires IsVars(m, {}, mv) && k in mv
    ensures mv[k].Value? && Declares(Obj(m), p, mv[k].v) && k == Join(p)
  {
    HasLeaf(m, mv, k);
    var p :| mv[k].Value? && Declares(Obj(m), p, mv[k].v) && k == Join(p);
    p
  }

  ghost function Winners(m: Fields, mv: map<string, Var>): iset<seq<string>>
    requires IsVars(m, {}, mv)
  {
    iset k | k in mv :: Winner(m, mv, k)
  }

  lemma NothingLeftOut(m: Fields, mv: map<string, Var>)
    requires GeoApart(Obj(m)) && IsVars(m, {}, mv)
    ensures EntersAll(Obj(m), [], GeoKeys(mv))
  {
    forall q | ObjectAt(Obj(m), q) ensures Join([] + q) !in GeoKeys(mv) {
      assert [] + q == q;
      if Join(q) in GeoKeys(mv) {
        var p := VarDeclared(m, mv, Join(q));
        GeoIsDeclared(Obj(m), p);
        assert false;
      }
    }
  }

  /** An event of exactly the leaves that became variables passes the validator. */
  lemma WinnersAgree(m: Fields, mv: map<string, Var>, d: Fields, dv: map<string, Var>)
    requires ValidMapping(Obj(m)) && GeoApart(Obj(m)) && IsVars(m, {}, mv)
    requires Obj(d) == Data(Obj(m), [], Winners(m, mv)) && IsVars(d, GeoKeys(mv), dv)
    ensures Agree(mv, dv)
  {
    var skip, keep := GeoKeys(mv), Winners(m, mv);
    NothingLeftOut(m, mv);
    forall k | k in dv ensures k in mv && IsArrayVar(mv[k]) == dv[k].IsArray() { WinnerVar(m, mv, d, dv, k); }
    forall k | k in mv ensures k in dv {
      var p := Winner(m, mv, k);
      assert [] + p == p && p in keep;
      KeptLeaf(Obj(m), [], keep, skip, p, mv[k].v);
      LeafRecorded(d, skip, dv, p, Value(Blank(mv[k].v.s)));
    }
    AgreeOnSameKeys(mv, dv);
  }

  lemma WinnerVar(m: Fields, mv: map<string, Var>, d: Fields, dv: map<string, Var>, k: string)
    requires ValidMapping(Obj(m)) && IsVars(m, {}, mv) && EntersAll(Obj(m), [], GeoKeys(mv))
    requires Obj(d) == Data(Obj(m), [], Winners(m, mv)) && IsVars(d, GeoKeys(mv), dv) && k in dv
    ensures k in mv && IsArrayVar(mv[k]) == dv[k].IsArray()
  {
    var skip, keep := GeoKeys(mv), Winners(m, mv);
    var p := VarPath(d, skip, dv, k);
    DataLeaf(Obj(m), [], keep, skip, p, dv[k]);
    assert [] + p == p;
    var l :| l in mv && p == Winner(m, mv, l);
    var t: string :| Declares(Obj(m), p, Str(t)) && dv[k] == Value(Blank(t));
    DeclaredOnce(Obj(m), p, Str(t), mv[l].v);
  }

  /** If two leaves have one dotted path, an event lacking the one that did not become a
      variable is let through. */
  lemma SharedPathSlips(parses: Parser, typeName: string, m: Fields)
    returns (d: Fields, mv: map<string, Var>, dv: map<string, Var>)
    requires ValidMapping(Obj(m)) && GeoApart(Obj(m)) && !LeavesApart(Obj(m))
    ensures Flattened(m, d, mv, dv) && !Sound(parses, typeName, m, d, mv, dv)
  {
    mv := Precheck.SomeOutcome(Obj(m), m.Keys, [], {}, map[]);
    d, dv := WinnersPass(parses, typeName, m, mv);
    WinnersUntyped(parses, m, mv);
  }

  /** An event of exactly the leaves that became variables passes both checks. */
  lemma WinnersPass(parses: Parser, typeName: string, m: Fields, mv: map<string, Var>)
    returns (d: Fields, dv: map<string, Var>)
    requires ValidMapping(Obj(m)) && GeoApart(Obj(m)) && IsVars(m, {}, mv)
    ensures Obj(d) == Data(Obj(m), [], Winners(m, mv)) && Flattened(m, d, mv, dv)
    ensures Agree(mv, dv) && StoreAccepts(parses, typeName, m, d) && Shaped(Obj(m), Obj(d))
  {
    DataConforms(parses, Obj(m), [], Winners(m, mv));
    d := Data(Obj(m), [], Winners(m, mv)).fields;
    dv := Precheck.SomeOutcome(Obj(d), d.Keys, [], GeoKeys(mv), map[]);
    WinnersAgree(m, mv, d, dv);
    StoreMeaning(parses, typeName, m, d);
  }

  /** It lacks one of two leaves that share a path. */
  lemma WinnersUntyped(parses: Parser, m: Fields, mv: map<string, Var>)
    requires ValidMapping(Obj(m)) && IsVars(m, {}, mv) && !LeavesApart(Obj(m))
    ensures !Typed(parses, Obj(m), Data(Obj(m), [], Winners(m, mv)))
  {
    var p, q, t, u :| Declares(Obj(m), p, t) && Declares(Obj(m), q, u) && Join(p) == Join(q) && p != q;
    OneWinner(m, mv, p, q);
    if p !in Winners(m, mv) { LoserUntyped(parses, m, mv, p, t); } else { LoserUntyped(parses, m, mv, q, u); }
  }

  lemma LoserUntyped(parses: Parser, m: Fields, mv: map<string, Var>, p: seq<string>, t: Json)
    requires ValidMapping(Obj(m)) && IsVars(m, {}, mv) && Declares(Obj(m), p, t) && p !in Winners(m, mv)
    ensures !Typed(parses, Obj(m), Data(Obj(m), [], Winners(m, mv)))
  {
    assert [] + p == p;
    LackingNotTyped(parses, Obj(m), [], Winners(m, mv), p, t);
  }

  lemma OneWinner(m: Fields, mv: map<string, Var>, p: seq<string>, q: seq<string>)
    requires IsVars(m, {}, mv) && |p| >= 1 && |q| >= 1 && Join(p) == Join(q) && p != q
    ensures p !in Winners(m, mv) || q !in Winners(m, mv)
  {
  }

  // ---------------------------------------------------------------- a geographic leaf at an object's path

  ghost predicate Conflict(m: Json, p: seq<string>, q: seq<string>) {
    GeoAt(m, p) && ObjectAt(m, q) && Join(p) == Join(q)
  }

  /** A conflicting object above which there is none. */
  lemma {:induction false} OutermostConflict(m: Json, p: seq<string>, q: seq<string>)
    returns (p': seq<string>, q': seq<string>)
    requires Conflict(m, p, q)
    ensures Conflict(m, p', q')
    ensures forall x, i | GeoAt(m, x) && 1 <= i < |q'| :: Join(x) != Join(q'[..i])
    decreases |q|
  {
    if x, i :| GeoAt(m, x) && 1 <= i < |q| && Join(x) == Join(q[..i]) {
      ObjectAbove(m, q, i);
      p', q' := OutermostConflict(m, x, q[..i]);
    } else {
      p', q' := p, q;
    }
  }

  lemma {:induction false} ObjectAbove(m: Json, q: seq<string>, i: nat)
    requires ObjectAt(m, q) && 1 <= i <= |q|
    ensures ObjectAt(m, q[..i])
    decreases i
  {
    if i > 1 {
      assert q[..i][1..] == q[1..][..i - 1];
      ObjectAbove(m.fields[q[0]], q[1..], i - 1);
    }
  }

  ghost function Without(p: seq<string>): iset<seq<string>> {
    EVERYTHING - iset{p}
  }

  /** With the geographic leaf as the variable, either the complete event is refused in
      some outcome, or the event without that leaf passes: the object stands in for it. */
  lemma GeoConflictSlips(parses: Parser, typeName: string, m: Fields)
    returns (d: Fields, mv: map<string, Var>, dv: map<string, Var>)
    requires ValidMapping(Obj(m)) && !GeoApart(Obj(m))
    ensures Flattened(m, d, mv, dv) && !Sound(parses, typeName, m, d, mv, dv)
  {
    var p0, q0 :| GeoAt(Obj(m), p0) && ObjectAt(Obj(m), q0) && Join(p0) == Join(q0);
    var p, q := OutermostConflict(Obj(m), p0, q0);
    mv := GeoVariable(m, p);
    var full := Data(Obj(m), [], EVERYTHING).fields;
    FullDataTyped(parses, Obj(m), []);
    DataField(Obj(m), [], EVERYTHING, "");
    if dv' :| IsVars(full, GeoKeys(mv), dv') && !Agree(mv, dv') {
      d, dv := full, dv';
    } else {
      d, dv := StandIn(parses, typeName, m, mv, full, p, q);
    }
  }

  lemma StandIn(parses: Parser, typeName: string, m: Fields, mv: map<string, Var>, full: Fields,
                p: seq<string>, q: seq<string>) returns (d: Fields, dv: map<string, Var>)
    requires ValidMapping(Obj(m)) && IsVars(m, {}, mv) && Conflict(Obj(m), p, q) && Join(p) in GeoKeys(mv)
    requires forall x, i | GeoAt(Obj(m), x) && 1 <= i < |q| :: Join(x) != Join(q[..i])
    requires Obj(full) == Data(Obj(m), [], EVERYTHING)
    requires forall dv' | IsVars(full, GeoKeys(mv), dv') :: Agree(mv, dv')
    ensures Flattened(m, d, mv, dv) && !Sound(parses, typeName, m, d, mv, dv)
  {
    d, dv := StandInPasses(parses, typeName, m, mv, p);
    StandInUntyped(parses, m, p);
    StandInAgrees(m, mv, full, d, dv, p, q);
  }

  lemma StandInPasses(parses: Parser, typeName: string, m: Fields, mv: map<string, Var>, p: seq<string>)
    returns (d: Fields, dv: map<string, Var>)
    requires ValidMapping(Obj(m)) && IsVars(m, {}, mv)
    ensures Obj(d) == Data(Obj(m), [], Without(p)) && Flattened(m, d, mv, dv)
    ensures StoreAccepts(parses, typeName, m, d) && Shaped(Obj(m), Obj(d))
  {
    DataConforms(parses, Obj(m), [], Without(p));
    d := Data(Obj(m), [], Without(p)).fields;
    dv := Precheck.SomeOutcome(Obj(d), d.Keys, [], GeoKeys(mv), map[]);
    StoreMeaning(parses, typeName, m, d);
  }

  lemma StandInUntyped(parses: Parser, m: Fields, p: seq<string>)
    requires ValidMapping(Obj(m)) && GeoAt(Obj(m), p)
    ensures !Typed(parses, Obj(m), Data(Obj(m), [], Without(p)))
  {
    GeoIsDeclared(Obj(m), p);
    var t :| Declares(Obj(m), p, t);
    assert [] + p == p;
    LackingNotTyped(parses, Obj(m), [], Without(p), p, t);
  }

  lemma GeoVariable(m: Fields, p: seq<string>) returns (mv: map<string, Var>)
    requires GeoAt(Obj(m), p)
    ensures IsVars(m, {}, mv) && Join(p) in GeoKeys(mv)
  {
    GeoIsDeclared(Obj(m), p);
    var t :| Declares(Obj(m), p, t);
    DeclaredLeaf(Obj(m), [], p, Value(t));
    mv := Precheck.LastLeaf(Obj(m), [], {}, p, Value(t), map[]);
    assert [] + p == p;
  }

  /** Nothing above the outermost conflicting object is left out. */
  lemma OutermostEntered(m: Fields, mv: map<string, Var>, q: seq<string>)
    requires IsVars(m, {}, mv)
    requires forall x, i | GeoAt(Obj(m), x) && 1 <= i < |q| :: Join(x) != Join(q[..i])
    ensures forall i | 1 <= i < |q| :: Join([] + q[..i]) !in GeoKeys(mv)
  {
    forall i | 1 <= i < |q| ensures Join([] + q[..i]) !in GeoKeys(mv) {
      assert [] + q[..i] == q[..i];
      if Join(q[..i]) in GeoKeys(mv) {
        var x := VarDeclared(m, mv, Join(q[..i]));
        GeoIsDeclared(Obj(m), x);
        assert false;
      }
    }
  }

  /** If every outcome of the complete event passes, so does the event without the leaf. */
  lemma StandInAgrees(m: Fields, mv: map<string, Var>, full: Fields, d: Fields, dv: map<string, Var>,
                      p: seq<string>, q: seq<string>)
    requires ValidMapping(Obj(m)) && IsVars(m, {}, mv) && Conflict(Obj(m), p, q) && Join(p) in GeoKeys(mv)
    requires forall x, i | GeoAt(Obj(m), x) && 1 <= i < |q| :: Join(x) != Join(q[..i])
    requires Obj(full) == Data(Obj(m), [], EVERYTHING) && Obj(d) == Data(Obj(m), [], Without(p))
    requires forall dv' | IsVars(full, GeoKeys(mv), dv') :: Agree(mv, dv')
    requires IsVars(d, GeoKeys(mv), dv)
    ensures Agree(mv, dv)
  {
    var skip := GeoKeys(mv);
    var dv1 := Precheck.SomeOutcome(Obj(full), full.Keys, [], skip, map[]);
    assert IsVars(full, skip, dv1) && Agree(mv, dv1);
    forall k | k in dv ensures k in dv1 && (k in mv ==> IsArrayVar(mv[k]) == dv[k].IsArray()) {
      StandInVar(m, mv, full, d, dv, dv1, p, k);
    }
    forall k | k in dv1 ensures k in dv { StandInKey(m, mv, full, d, dv, dv1, p, q, k); }
    assert dv.Keys == dv1.Keys;
    assert |dv| == |dv.Keys| == |dv1.Keys| == |dv1|;
  }

  lemma StandInVar(m: Fields, mv: map<string, Var>, full: Fields, d: Fields, dv: map<string, Var>,
                   dv1: map<string, Var>, p: seq<string>, k: string)
    requires ValidMapping(Obj(m))
    requires Obj(full) == Data(Obj(m), [], EVERYTHING) && Obj(d) == Data(Obj(m), [], Without(p))
    requires forall dv' | IsVars(full, GeoKeys(mv), dv') :: Agree(mv, dv')
    requires IsVars(d, GeoKeys(mv), dv) && IsVars(full, GeoKeys(mv), dv1) && k in dv
    ensures k in dv1 && (k in mv ==> IsArrayVar(mv[k]) == dv[k].IsArray())
  {
    var skip := GeoKeys(mv);
    var r := VarPath(d, skip, dv, k);
    var y := LeafInBoth(Obj(m), [], Without(p), EVERYTHING, skip, r, dv[k]);
    LeafRecorded(full, skip, dv1, r, y);
    var dv' := Precheck.LastLeaf(Obj(full), [], skip, r, y, map[]);
    assert IsVars(full, skip, dv') && [] + r == r;
    assert Agree(mv, dv');
  }

  lemma StandInKey(m: Fields, mv: map<string, Var>, full: Fields, d: Fields, dv: map<string, Var>,
                   dv1: map<string, Var>, p: seq<string>, q: seq<string>, k: string)
    requires ValidMapping(Obj(m)) && IsVars(m, {}, mv) && Conflict(Obj(m), p, q) && Join(p) in GeoKeys(mv)
    requires forall x, i | GeoAt(Obj(m), x) && 1 <= i < |q| :: Join(x) != Join(q[..i])
    requires Obj(full) == Data(Obj(m), [], EVERYTHING) && Obj(d) == Data(Obj(m), [], Without(p))
    requires IsVars(d, GeoKeys(mv), dv) && IsVars(full, GeoKeys(mv), dv1) && k in dv1
    ensures k in dv
  {
    var skip := GeoKeys(mv);
    var r := VarPath(full, skip, dv1, k);
    assert [] + r == r && [] + q == q;
    if r == p {
      OutermostEntered(m, mv, q);
      var x := LeftOutObject(Obj(m), [], Without(p), skip, q);
      LeafRecorded(d, skip, dv, q, x);
    } else {
      var y := LeafInBoth(Obj(m), [], EVERYTHING, Without(p), skip, r, dv1[k]);
      LeafRecorded(d, skip, dv, r, y);
    }
  }

  // ---------------------------------------------------------------- the theorem

  /** For every mapping that compiles: the validator and the schema let through exactly the
      typed events of the mapping's shape, in every iteration order, if and only if the
      mapping's dotted paths tell its fields apart. */
  lemma TypingIffUnambiguous(parses: Parser, typeName: string, m: Fields)
    requires ValidMapping(Obj(m))
    ensures (forall d, mv, dv | Flattened(m, d, mv, dv) :: Sound(parses, typeName, m, d, mv, dv)) <==>
            Unambiguous(Obj(m))
  {
    if Unambiguous(Obj(m)) {
      forall d, mv, dv | Flattened(m, d, mv, dv) ensures Sound(parses, typeName, m, d, mv, dv) {
        ValidatorAndSchemaAreTyping(parses, typeName, m, d, mv, dv);
      }
    } else if GeoApart(Obj(m)) {
      var d, mv, dv := SharedPathSlips(parses, typeName, m);
    } else {
      var d, mv, dv := GeoConflictSlips(parses, typeName, m);
    }
  }
}
