/** A trigger's condition on its way into the trigger store and back:
    Service.PostTrigger rewrites it for the percolator, TriggerDB.PostData encodes it,
    TriggerDB.GetOne decodes it, Service.GetTrigger unwraps it, TriggerDB.PutTrigger
    encodes what was decoded. */
module TriggerConditions {
  import opened Json
  import opened DottedNames
  import opened ConditionKeys
  import opened ConditionTrees
  import opened StoredTrees

  function Rewrite(typeName: string): KeyMap {
    OnAll(k => Insert(typeName, k))
  }

  function Encode(): KeyMap {
    OnLeaves(ToTildes)
  }

  function UndoTildes(): KeyMap {
    OnLeaves(ToDots)
  }

  function StripAll(): KeyMap {
    OnAll(Strip)
  }

  /** decodeCondition: two walks. */
  ghost predicate Decoded(stored: Json, out: Json) {
    exists mid :: Renames(UndoTildes(), stored, mid) && Renames(StripAll(), mid, out)
  }

  /** The rewriting of Service.PostTrigger. */
  method RewriteCondition(typeName: string, condition: Fields) returns (query: Fields)
    ensures Renames(Rewrite(typeName), Obj(condition), Obj(query))
  {
    query := HandleUniqueParamsMap(condition, k => Insert(typeName, k));
  }

  method EncodeCondition(condition: Fields) returns (stored: Fields)
    ensures Renames(Encode(), Obj(condition), Obj(stored))
  {
    stored := HandleDotTildeMap(condition, ToTildes);
  }

  method DecodeCondition(stored: Fields) returns (condition: Fields)
    ensures Decoded(Obj(stored), Obj(condition))
  {
    var mid := HandleDotTildeMap(stored, ToDots);
    assert Renames(UndoTildes(), Obj(stored), Obj(mid));
    condition := HandleUniqueParamsMap(mid, Strip);
    assert Renames(StripAll(), Obj(mid), Obj(condition));
  }

  // ---------------------------------------------------------------- no collisions

  const ANY_KEY: string -> bool := k => true

  lemma {:induction false} AllKeysAny(c: Json)
    ensures AllKeys(ANY_KEY, c)
    decreases c
  {
    match c
    case Arr(xs) => forall i | 0 <= i < |xs| ensures AllKeys(ANY_KEY, xs[i]) { AllKeysAny(xs[i]); }
    case Obj(m) => forall k | k in m ensures ANY_KEY(k) && AllKeys(ANY_KEY, m[k]) { AllKeysAny(m[k]); }
    case _ =>
  }

  /** Rewriting never makes two keys of a condition collide, whatever the type name
      is, so the percolation query does not depend on the iteration order. */
  lemma RewriteHasOneOutcome(typeName: string, c: Json, q: Json, q': Json)
    requires Renames(Rewrite(typeName), c, q) && Renames(Rewrite(typeName), c, q')
    ensures NoCollision(Rewrite(typeName), c) && q == q'
  {
    AllKeysAny(c);
    forall b, b', k, l | Rewrite(typeName)(b, k) == Rewrite(typeName)(b', l) ensures k == l {
      InsertInjective(typeName, k, l);
    }
    InjectiveNoCollision(Rewrite(typeName), ANY_KEY, c);
    OneOutcome(Rewrite(typeName), c, q, q');
  }

  // ---------------------------------------------------------------- encoding

  function Keep(): KeyMap {
    OnAll(k => k)
  }

  lemma {:induction false} KeepRenames(c: Json)
    ensures Renames(Keep(), c, c)
    decreases c
  {
    match c
    case Arr(xs) => forall i | 0 <= i < |xs| ensures Renames(Keep(), xs[i], xs[i]) { KeepRenames(xs[i]); }
    case Obj(m) =>
      forall k | k in m ensures HasSource(Keep(), c, k, m[k]) {
        KeepRenames(m[k]);
        assert NewKey(Keep(), m, k) == k;
      }
    case _ =>
  }

  /** Leaf keys have no tilde, and no other key is what a leaf key beside it is stored under. */
  ghost predicate Encodable(c: Json)
    decreases c
  {
    match c
    case Arr(xs) => forall i | 0 <= i < |xs| :: Encodable(xs[i])
    case Obj(m) =>
      && (forall k | k in m && m[k].IsLeaf() :: TildeFree(k))
      && (forall k, l | k in m && l in m && m[k].IsLeaf() && !m[l].IsLeaf() :: ToTildes(k) != l)
      && (forall k | k in m :: Encodable(m[k]))
    case _ => true
  }

  function EncodeWalks(): Walks {
    Walks(Keep(), Encode(), UndoTildes(), Keep())
  }

  lemma EncodeWalksFixed()
    ensures EncodeWalks().Simple() && EncodeWalks().OntoOnlyFixed()
  {
    var w := EncodeWalks();
    forall leaf, keys | Onto(w.Reader(leaf), keys) ensures FixesAll(w.Reader(leaf), keys) {
      forall k | k in keys ensures w.Reader(leaf)(k) == k {
        assert HasPreimage(w.Reader(leaf), keys, k);
        var l :| l in keys && w.Reader(leaf)(l) == k;
        if leaf {
          DotsAbsorbTildes(l);
          DotsAbsorbTildes(k);
          DotsAreTildeFree(l);
          DotsAreTildeFree(k);
        }
      }
    }
  }

  lemma {:induction false} EncodableIsKept(c: Json)
    ensures Encodable(c) <==> Kept(EncodeWalks(), c)
    decreases c
  {
    match c
    case Arr(xs) =>
      forall i | 0 <= i < |xs| ensures Encodable(xs[i]) <==> Kept(EncodeWalks(), xs[i]) {
        EncodableIsKept(xs[i]);
      }
    case Obj(m) =>
      forall k | k in m ensures Encodable(m[k]) <==> Kept(EncodeWalks(), m[k]) { EncodableIsKept(m[k]); }
      forall k ensures EncodeWalks().Read(true, k) == k <==> TildeFree(k) {
        DotsAbsorbTildes(k);
        DotsAreTildeFree(k);
      }
      forall k, l | TildeFree(k) && TildeFree(l) ensures ToTildes(k) == ToTildes(l) ==> k == l {
        TildesInjective(k, l);
      }
    case _ =>
  }

  /** For every tree and every iteration order: decoding the tildes gives the encoded
      tree back if and only if it is encodable. */
  lemma EncodingUndone(c: Json, s: Json, mid: Json)
    requires Renames(Encode(), c, s) && Renames(UndoTildes(), s, mid)
    ensures mid == c <==> Encodable(c)
  {
    KeepRenames(c);
    KeepRenames(mid);
    EncodeWalksFixed();
    ReturnsIffKept(EncodeWalks(), Trees(c, c, s, mid, mid));
    EncodableIsKept(c);
  }

  // ---------------------------------------------------------------- round trip

  function PostWalks(typeName: string): Walks {
    Walks(Rewrite(typeName), Encode(), UndoTildes(), StripAll())
  }

  /** What a caller can check of a condition: its leaf keys have no tilde and survive
      being rewritten with the type name, whose own tildes come back as dots; its other
      keys survive being rewritten with the type name as it is; and no two fields of one
      object are stored under one name. */
  ghost predicate Readable(typeName: string, c: Json)
    decreases c
  {
    match c
    case Arr(xs) => forall i | 0 <= i < |xs| :: Readable(typeName, xs[i])
    case Obj(m) =>
      && (forall k | k in m ::
            if m[k].IsLeaf() then TildeFree(k) && SurvivesRoundTrip(ToDots(typeName), k)
            else SurvivesRoundTrip(typeName, k))
      && (forall k, l | k in m && l in m && m[k].IsLeaf() && !m[l].IsLeaf() ::
            ToTildes(Insert(typeName, k)) != Insert(typeName, l))
      && (forall k | k in m :: Readable(typeName, m[k]))
    case _ => true
  }

  /** What posting and reading makes of a leaf key. */
  lemma LeafRead(typeName: string, k: string)
    ensures TildeFree(PostWalks(typeName).Read(true, k))
    ensures TildeFree(k) ==> PostWalks(typeName).Read(true, k) == PostThenRead(ToDots(typeName), k)
    ensures PostWalks(typeName).Read(true, k) == k <==> TildeFree(k) && SurvivesRoundTrip(ToDots(typeName), k)
  {
    var x := Insert(typeName, k);
    DotsAbsorbTildes(x);
    DotsAreTildeFree(x);
    StripTildeFree(ToDots(x));
    if TildeFree(k) { InsertThenDots(typeName, k); }
    KeyRoundTrip(ToDots(typeName), k);
  }

  lemma LeafKeysOnto(typeName: string, keys: set<string>)
    requires Onto(PostWalks(typeName).Reader(true), keys)
    ensures FixesAll(PostWalks(typeName).Reader(true), keys)
  {
    var f, g := PostWalks(typeName).Reader(true), PostReader(ToDots(typeName));
    forall k | k in keys ensures TildeFree(k) {
      assert HasPreimage(f, keys, k);
      var l :| l in keys && f(l) == k;
      LeafRead(typeName, l);
    }
    forall k | k in keys ensures f(k) == g(k) { LeafRead(typeName, k); }
    forall k | k in keys ensures HasPreimage(g, keys, k) {
      assert HasPreimage(f, keys, k);
      var l :| l in keys && f(l) == k;
      assert g(l) == k;
    }
    OntoMeansFixed(ToDots(typeName), keys);
  }

  lemma OtherKeysOnto(typeName: string, keys: set<string>)
    requires Onto(PostWalks(typeName).Reader(false), keys)
    ensures FixesAll(PostWalks(typeName).Reader(false), keys)
  {
    var f, g := PostWalks(typeName).Reader(false), PostReader(typeName);
    forall k | k in keys ensures HasPreimage(g, keys, k) {
      assert HasPreimage(f, keys, k);
      var l :| l in keys && f(l) == k;
      assert g(l) == k;
    }
    OntoMeansFixed(typeName, keys);
  }

  lemma PostWalksFixed(typeName: string)
    ensures PostWalks(typeName).Simple() && PostWalks(typeName).OntoOnlyFixed()
  {
    var w := PostWalks(typeName);
    forall b, b', k, l | w.rename(b, k) == w.rename(b', l) ensures k == l { InsertInjective(typeName, k, l); }
    forall leaf, keys | Onto(w.Reader(leaf), keys) ensures FixesAll(w.Reader(leaf), keys) {
      if leaf { LeafKeysOnto(typeName, keys); } else { OtherKeysOnto(typeName, keys); }
    }
  }

  lemma ReadableFieldKept(typeName: string, m: Fields, k: string)
    requires k in m
    ensures PostWalks(typeName).Read(m[k].IsLeaf(), k) == k <==>
            if m[k].IsLeaf() then TildeFree(k) && SurvivesRoundTrip(ToDots(typeName), k)
            else SurvivesRoundTrip(typeName, k)
  {
    LeafRead(typeName, k);
    KeyRoundTrip(typeName, k);
  }

  /** Fields of one kind that are read back under their names are stored apart. */
  lemma SameKindApart(w: Walks, leaf: bool, k: string, l: string)
    requires w.Read(leaf, k) == k && w.Read(leaf, l) == l
    ensures w.Stored(leaf, k) == w.Stored(leaf, l) ==> k == l
  {
  }

  lemma {:induction false} ReadableIsKept(typeName: string, c: Json)
    ensures Readable(typeName, c) <==> Kept(PostWalks(typeName), c)
    decreases c
  {
    var w := PostWalks(typeName);
    match c
    case Arr(xs) =>
      forall i | 0 <= i < |xs| ensures Readable(typeName, xs[i]) <==> Kept(w, xs[i]) {
        ReadableIsKept(typeName, xs[i]);
      }
    case Obj(m) =>
      forall k | k in m ensures Readable(typeName, m[k]) <==> Kept(w, m[k]) { ReadableIsKept(typeName, m[k]); }
      forall k | k in m { ReadableFieldKept(typeName, m, k); }
      forall k, l, leaf | w.Read(leaf, k) == k && w.Read(leaf, l) == l
        ensures w.Stored(leaf, k) == w.Stored(leaf, l) ==> k == l
      {
        SameKindApart(w, leaf, k, l);
      }
    case _ =>
  }

  /** A posted condition is read back unchanged, in every iteration order, exactly
      when it is readable. */
  lemma ConditionRoundTrip(typeName: string, c: Json, q: Json, s: Json, r: Json)
    requires Renames(Rewrite(typeName), c, q) && Renames(Encode(), q, s) && Decoded(s, r)
    ensures r == c <==> Readable(typeName, c)
  {
    var mid :| Renames(UndoTildes(), s, mid) && Renames(StripAll(), mid, r);
    PostWalksFixed(typeName);
    ReturnsIffKept(PostWalks(typeName), Trees(c, q, s, mid, r));
    ReadableIsKept(typeName, c);
  }

  /** GetTrigger also unwraps a condition that holds the type name as a top-level
      key, so it returns the posted condition exactly when, further, it has no such key. */
  lemma GetTriggerRoundTrip(typeName: string, c: Fields, q: Json, s: Json, r: Fields)
    requires Renames(Rewrite(typeName), Obj(c), q) && Renames(Encode(), q, s) && Decoded(s, Obj(r))
    ensures RemoveUniqueParams(typeName, r) == Unwrapped.Fields(c) <==> Readable(typeName, Obj(c)) && typeName !in c
  {
    ConditionRoundTrip(typeName, Obj(c), q, s, Obj(r));
    ReadDepth(typeName, Obj(c), q, s, Obj(r));
    Unwrapping(typeName, c, r);
  }

  lemma Unwrapping(typeName: string, c: Fields, r: Fields)
    requires Depth(Obj(r)) <= Depth(Obj(c))
    ensures RemoveUniqueParams(typeName, r) == Unwrapped.Fields(c) <==> Obj(r) == Obj(c) && typeName !in c
  {
    if typeName in r && r[typeName].Obj? {
      assert typeName in r.Keys;
      assert Depth(r[typeName]) < Depth(Obj(r));
    }
  }

  lemma ReadDepth(typeName: string, c: Json, q: Json, s: Json, r: Json)
    requires Renames(Rewrite(typeName), c, q) && Renames(Encode(), q, s) && Decoded(s, r)
    ensures Depth(r) <= Depth(c)
  {
    var mid :| Renames(UndoTildes(), s, mid) && Renames(StripAll(), mid, r);
    RenamesDepth(Rewrite(typeName), c, q);
    RenamesDepth(Encode(), q, s);
    RenamesDepth(UndoTildes(), s, mid);
    RenamesDepth(StripAll(), mid, r);
  }

  // ---------------------------------------------------------------- a clause that is lost

  lemma InsertApart(typeName: string, k: string, l: string)
    ensures Insert(typeName, k) == Insert(typeName, l) ==> k == l
  {
    if Insert(typeName, k) == Insert(typeName, l) { InsertInjective(typeName, k, l); }
  }

  function TermOf(fields: Fields): Json {
    Obj(map["term" := Obj(fields)])
  }

  /** Two fields of one term clause that are stored under one name: the registered query
      asks for both, what is stored and read back for one of them, whichever is written last. */
  lemma TildeLosesAClause(typeName: string, k: string, v: Json, l: string, w: Json, q: Json, s: Json)
    requires k != l && v.IsLeaf() && w.IsLeaf()
    requires ToTildes(Insert(typeName, k)) == ToTildes(Insert(typeName, l))
    requires Renames(Rewrite(typeName), TermOf(map[k := v, l := w]), q) && Renames(Encode(), q, s)
    ensures q == TermOf(map[Insert(typeName, k) := v, Insert(typeName, l) := w])
    ensures var name := ToTildes(Insert(typeName, k));
            s == TermOf(map[name := v]) || s == TermOf(map[name := w])
  {
    DataHasDot("term", Index("term", DATA));
    InsertApart(typeName, k, l);
    var fields := Inside(Rewrite(typeName), "term", map[k := v, l := w], q);
    TwoLeaves(Rewrite(typeName), k, v, l, w, fields);
    var stored := Inside(Encode(), "term", fields, s);
    TwoLeaves(Encode(), Insert(typeName, k), v, Insert(typeName, l), w, stored);
  }

  /** A walk that keeps the name of an object's only field, an object, walks that object. */
  lemma Inside(f: KeyMap, name: string, inner: Fields, out: Json) returns (fields: Fields)
    requires f(false, name) == name && Renames(f, Obj(map[name := Obj(inner)]), out)
    ensures out == Obj(map[name := Obj(fields)]) && Renames(f, Obj(inner), Obj(fields))
  {
    var c := Obj(map[name := Obj(inner)]);
    assert NewKey(f, c.fields, name) == name;
    forall x | x in out.fields ensures x == name { var k := Source(f, c, x, out.fields[x]); }
    var k := Source(f, c, name, out.fields[name]);
    fields := out.fields[name].fields;
    assert out.fields == map[name := Obj(fields)];
  }

  /** The outcomes of a walk over two leaves. */
  lemma TwoLeaves(f: KeyMap, k: string, v: Json, l: string, w: Json, out: Fields)
    requires k != l && v.IsLeaf() && w.IsLeaf() && Renames(f, Obj(map[k := v, l := w]), Obj(out))
    ensures f(true, k) != f(true, l) ==> out == map[f(true, k) := v, f(true, l) := w]
    ensures f(true, k) == f(true, l) ==> out == map[f(true, k) := v] || out == map[f(true, k) := w]
  {
    var m := map[k := v, l := w];
    assert NewKey(f, m, k) == f(true, k) && NewKey(f, m, l) == f(true, l);
    assert f(true, k) in out && f(true, l) in out;
    forall x | x in out ensures (x == f(true, k) && out[x] == v) || (x == f(true, l) && out[x] == w) {
      var y := Source(f, Obj(m), x, out[x]);
    }
  }

  /** Such fields are "data.x" and, for the type "t", "data~t~x". */
  lemma TildeClash()
    ensures "data.x" != "data~t~x" && ToTildes(Insert("t", "data.x")) == ToTildes(Insert("t", "data~t~x"))
  {
    assert "data" + "." + "x" == "data.x" && "data" + "." + ("t" + "." + "x") == "data.t.x";
    InsertAtHead("t", "data", "x");
    DataHasDot("data~t~x", Index("data~t~x", DATA));
    assert "data.x"[4] == '.';
  }
}
