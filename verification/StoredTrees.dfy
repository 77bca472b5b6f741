/** A tree that is renamed, encoded for storage, decoded and renamed again: exactly when
    it comes back as it was, for every iteration order of the four walks. */
module StoredTrees {
  import opened Json
  import opened ConditionKeys
  import opened ConditionTrees

  /** The key maps of the four walks, one after another. */
  datatype Walks = Walks(rename: KeyMap, encode: KeyMap, decode: KeyMap, finish: KeyMap) {
    /** The name a field is stored under. */
    function Stored(leaf: bool, k: string): string {
      encode(leaf, rename(leaf, k))
    }

    /** The name it has when it is read back, if nothing overwrote it. */
    function Read(leaf: bool, k: string): string {
      finish(leaf, decode(leaf, Stored(leaf, k)))
    }

    function Reader(leaf: bool): string -> string {
      k => Read(leaf, k)
    }

    /** The first walk never makes two keys collide, the last treats all keys alike. */
    ghost predicate Simple() {
      && (forall b, b', k, l | rename(b, k) == rename(b', l) :: k == l)
      && (forall k :: finish(true, k) == finish(false, k))
    }

    /** No finite set of keys is mapped onto itself except by moving nothing. */
    ghost predicate OntoOnlyFixed() {
      forall leaf, keys | Onto(Reader(leaf), keys) :: FixesAll(Reader(leaf), keys)
    }
  }

  /** Every field is read back under its own name, and no two fields of one object are
      stored under one name. */
  ghost predicate Kept(w: Walks, c: Json)
    decreases c
  {
    match c
    case Arr(xs) => forall i | 0 <= i < |xs| :: Kept(w, xs[i])
    case Obj(m) =>
      && (forall k | k in m :: w.Read(m[k].IsLeaf(), k) == k)
      && (forall k, l | k in m && l in m && w.Stored(m[k].IsLeaf(), k) == w.Stored(m[l].IsLeaf(), l) :: k == l)
      && (forall k | k in m :: Kept(w, m[k]))
    case _ => true
  }

  /** The trees between the walks; an outcome of each. */
  datatype Trees = Trees(start: Json, renamed: Json, stored: Json, decoded: Json, end: Json)

  ghost predicate Walked(w: Walks, t: Trees) {
    && Renames(w.rename, t.start, t.renamed) && Renames(w.encode, t.renamed, t.stored)
    && Renames(w.decode, t.stored, t.decoded) && Renames(w.finish, t.decoded, t.end)
  }

  /** The way of one field through the walks. */
  datatype Keys = Keys(start: string, renamed: string, stored: string, decoded: string, end: string)

  predicate FieldsOf(t: Trees, ks: Keys) {
    && t.start.Obj? && t.renamed.Obj? && t.stored.Obj? && t.decoded.Obj? && t.end.Obj?
    && ks.start in t.start.fields && ks.renamed in t.renamed.fields && ks.stored in t.stored.fields
    && ks.decoded in t.decoded.fields && ks.end in t.end.fields
  }

  function Below(t: Trees, ks: Keys): Trees
    requires FieldsOf(t, ks)
  {
    Trees(t.start.fields[ks.start], t.renamed.fields[ks.renamed], t.stored.fields[ks.stored],
          t.decoded.fields[ks.decoded], t.end.fields[ks.end])
  }

  ghost predicate Arrays(t: Trees) {
    && t.start.Arr? && t.renamed.Arr? && t.stored.Arr? && t.decoded.Arr? && t.end.Arr?
    && |t.start.items| == |t.renamed.items| == |t.stored.items| == |t.decoded.items| == |t.end.items|
  }

  ghost function Item(t: Trees, i: nat): Trees
    requires Arrays(t) && i < |t.start.items|
  {
    Trees(t.start.items[i], t.renamed.items[i], t.stored.items[i], t.decoded.items[i], t.end.items[i])
  }

  lemma ArraysWalked(w: Walks, t: Trees)
    requires t.start.Arr? && Walked(w, t)
    ensures Arrays(t) && forall i | 0 <= i < |t.start.items| :: Walked(w, Item(t, i))
  {
  }

  /** Every key of the outcome comes from a key of the tree. */
  lemma Origin(w: Walks, t: Trees, x: string) returns (ks: Keys)
    requires t.start.Obj? && Walked(w, t) && t.end.Obj? && x in t.end.fields
    ensures FieldsOf(t, ks) && Walked(w, Below(t, ks)) && ks.end == x
    ensures var leaf := t.start.fields[ks.start].IsLeaf();
            && t.stored.fields[ks.stored].IsLeaf() == leaf && t.end.fields[x].IsLeaf() == leaf
            && ks.stored == w.Stored(leaf, ks.start) && x == w.Read(leaf, ks.start)
  {
    var d := Source(w.finish, t.decoded, x, t.end.fields[x]);
    var b := Source(w.decode, t.stored, d, t.decoded.fields[d]);
    var a := Source(w.encode, t.renamed, b, t.stored.fields[b]);
    var k := Source(w.rename, t.start, a, t.renamed.fields[a]);
    ks := Keys(k, a, b, d, x);
    SameShape(w.finish, t.decoded.fields[d], t.end.fields[x]);
    SameShape(w.decode, t.stored.fields[b], t.decoded.fields[d]);
    SameShape(w.encode, t.renamed.fields[a], t.stored.fields[b]);
    SameShape(w.rename, t.start.fields[k], t.renamed.fields[a]);
  }

  // ---------------------------------------------------------------- what comes back is kept

  ghost function KeysOfKind(m: Fields, leaf: bool): set<string> {
    set k | k in m && m[k].IsLeaf() == leaf
  }

  /** If the tree comes back, the walks map its keys of either kind onto themselves. */
  lemma ReturnedKeysFixed(w: Walks, t: Trees, leaf: bool)
    requires w.OntoOnlyFixed() && t.start.Obj? && Walked(w, t) && t.end == t.start
    ensures forall k | k in KeysOfKind(t.start.fields, leaf) :: w.Read(leaf, k) == k
  {
    var f, keys := w.Reader(leaf), KeysOfKind(t.start.fields, leaf);
    forall x | x in keys ensures HasPreimage(f, keys, x) {
      var ks := Origin(w, t, x);
      assert ks.start in keys && f(ks.start) == x;
    }
    assert Onto(f, keys);
    assert FixesAll(f, keys);
    forall k | k in keys ensures w.Read(leaf, k) == k { assert f(k) == k; }
  }

  lemma ReturnedFieldKept(w: Walks, t: Trees, k: string) returns (ks: Keys)
    requires w.OntoOnlyFixed() && t.start.Obj? && Walked(w, t) && t.end == t.start && k in t.start.fields
    ensures FieldsOf(t, ks) && Walked(w, Below(t, ks)) && Below(t, ks).end == Below(t, ks).start == t.start.fields[k]
    ensures var leaf := t.start.fields[k].IsLeaf();
            && w.Read(leaf, k) == k && ks.stored == w.Stored(leaf, k)
            && t.stored.fields[ks.stored].IsLeaf() == leaf
  {
    var leaf := t.start.fields[k].IsLeaf();
    ReturnedKeysFixed(w, t, leaf);
    assert k in KeysOfKind(t.start.fields, leaf);
    ks := Origin(w, t, k);
    assert ks.start in KeysOfKind(t.start.fields, leaf);
  }

  /** If two fields were stored under one name, they are of one kind and so one field. */
  lemma ReturnedApart(w: Walks, t: Trees, k: string, l: string)
    requires w.OntoOnlyFixed() && t.start.Obj? && Walked(w, t) && t.end == t.start
    requires k in t.start.fields && l in t.start.fields
    ensures var m := t.start.fields; w.Stored(m[k].IsLeaf(), k) == w.Stored(m[l].IsLeaf(), l) ==> k == l
  {
    var ks := ReturnedFieldKept(w, t, k);
    var ls := ReturnedFieldKept(w, t, l);
  }

  lemma {:induction false} ReturnedIsKept(w: Walks, t: Trees)
    requires w.OntoOnlyFixed() && Walked(w, t) && t.end == t.start
    ensures Kept(w, t.start)
    decreases t.start
  {
    match t.start
    case Arr(xs) =>
      ArraysWalked(w, t);
      forall i | 0 <= i < |xs| ensures Kept(w, xs[i]) { ReturnedIsKept(w, Item(t, i)); }
    case Obj(m) =>
      forall k | k in m ensures w.Read(m[k].IsLeaf(), k) == k && Kept(w, m[k]) {
        var ks := ReturnedFieldKept(w, t, k);
        ReturnedIsKept(w, Below(t, ks));
      }
      forall k, l | k in m && l in m && w.Stored(m[k].IsLeaf(), k) == w.Stored(m[l].IsLeaf(), l) ensures k == l {
        ReturnedApart(w, t, k, l);
      }
    case _ =>
  }

  // ---------------------------------------------------------------- what is kept comes back

  /** A kept field is still there at the end. */
  lemma KeptFieldReturns(w: Walks, t: Trees, k: string)
    requires w.Simple() && t.start.Obj? && Kept(w, t.start) && Walked(w, t) && k in t.start.fields
    ensures t.end.Obj? && k in t.end.fields
  {
    var m := t.start.fields;
    var leaf := m[k].IsLeaf();
    var a := NewKey(w.rename, m, k);
    var k' := Source(w.rename, t.start, a, t.renamed.fields[a]);
    SameShape(w.rename, m[k'], t.renamed.fields[a]);
    var b := NewKey(w.encode, t.renamed.fields, a);
    StoredKind(w, t, b, k);
    var d := NewKey(w.decode, t.stored.fields, b);
    assert w.finish(true, d) == w.finish(false, d);
    assert NewKey(w.finish, t.decoded.fields, d) == w.Read(leaf, k) == k;
  }

  lemma StoredKind(w: Walks, t: Trees, b: string, k: string)
    requires t.start.Obj? && Kept(w, t.start) && Walked(w, t) && k in t.start.fields && b in t.stored.fields
    requires b == w.Stored(t.start.fields[k].IsLeaf(), k)
    ensures t.stored.fields[b].IsLeaf() == t.start.fields[k].IsLeaf()
  {
    var a := Source(w.encode, t.renamed, b, t.stored.fields[b]);
    var k' := Source(w.rename, t.start, a, t.renamed.fields[a]);
    SameShape(w.encode, t.renamed.fields[a], t.stored.fields[b]);
    SameShape(w.rename, t.start.fields[k'], t.renamed.fields[a]);
  }

  lemma {:induction false} KeptReturns(w: Walks, t: Trees)
    requires w.Simple() && Walked(w, t) && Kept(w, t.start)
    ensures t.end == t.start
    decreases t.start, 1
  {
    match t.start
    case Arr(xs) =>
      ArraysWalked(w, t);
      forall i | 0 <= i < |xs| ensures t.end.items[i] == xs[i] { KeptReturns(w, Item(t, i)); }
      assert t.end.items == xs;
    case Obj(m) => KeptObjectReturns(w, t);
    case _ =>
  }

  lemma {:induction false} KeptObjectReturns(w: Walks, t: Trees)
    requires w.Simple() && t.start.Obj? && Walked(w, t) && Kept(w, t.start)
    ensures t.end == t.start
    decreases t.start, 0, 1
  {
    ObjectEnds(w, t);
    FieldsReturn(w, t);
    forall x | x in t.end.fields ensures SameField(t, x) { KeptFieldSame(w, t, x); }
    SameObject(t);
  }

  predicate SameField(t: Trees, x: string)
    requires t.start.Obj? && t.end.Obj? && x in t.end.fields
  {
    x in t.start.fields && t.end.fields[x] == t.start.fields[x]
  }

  lemma SameObject(t: Trees)
    requires t.start.Obj? && t.end.Obj? && t.start.fields.Keys <= t.end.fields.Keys
    requires forall x | x in t.end.fields :: SameField(t, x)
    ensures t.end == t.start
  {
    assert t.end.fields == t.start.fields;
  }

  lemma FieldsReturn(w: Walks, t: Trees)
    requires w.Simple() && t.start.Obj? && Walked(w, t) && Kept(w, t.start) && t.end.Obj?
    ensures t.start.fields.Keys <= t.end.fields.Keys
  {
    forall k | k in t.start.fields ensures k in t.end.fields { KeptFieldReturns(w, t, k); }
  }

  lemma ObjectEnds(w: Walks, t: Trees)
    requires t.start.Obj? && Walked(w, t)
    ensures t.end.Obj?
  {
  }

  lemma {:induction false} KeptFieldSame(w: Walks, t: Trees, x: string)
    requires w.Simple() && t.start.Obj? && Walked(w, t) && Kept(w, t.start) && t.end.Obj? && x in t.end.fields
    ensures SameField(t, x)
    decreases t.start, 0, 0
  {
    var ks := Origin(w, t, x);
    KeptBelow(w, t, ks);
    KeptReturns(w, Below(t, ks));
  }

  lemma KeptBelow(w: Walks, t: Trees, ks: Keys)
    requires Kept(w, t.start) && FieldsOf(t, ks)
    requires ks.end == w.Read(t.start.fields[ks.start].IsLeaf(), ks.start)
    ensures ks.end == ks.start && Kept(w, Below(t, ks).start) && Below(t, ks).start < t.start
  {
  }

  /** For every tree and every iteration order: the tree comes back if and only if it is kept. */
  lemma ReturnsIffKept(w: Walks, t: Trees)
    requires w.Simple() && w.OntoOnlyFixed() && Walked(w, t)
    ensures t.end == t.start <==> Kept(w, t.start)
  {
    if t.end == t.start { ReturnedIsKept(w, t); }
    if Kept(w, t.start) { KeptReturns(w, t); }
  }
}
