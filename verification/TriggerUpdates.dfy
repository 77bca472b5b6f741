/** TriggerDB.PutTrigger encodes a trigger that GetOne has already decoded and
    stripped, so every update strips the condition once more, and it encodes the
    whole trigger, the job included, which no reader decodes. */
module TriggerUpdates {
  import opened Json
  import opened DottedNames
  import opened ConditionKeys
  import opened ConditionTrees
  import opened StoredTrees
  import opened TriggerConditions
  import opened Records

  // ---------------------------------------------------------------- the condition

  /** The visible condition v may be visible as w after one update. */
  ghost predicate Updated(v: Json, w: Json) {
    exists s :: Renames(Encode(), v, s) && Decoded(s, w)
  }

  ghost predicate UpdatedTimes(n: nat, v: Json, w: Json) {
    if n == 0 then w == v else exists u :: Updated(v, u) && UpdatedTimes(n - 1, u, w)
  }

  function UpdateWalks(): Walks {
    Walks(Keep(), Encode(), UndoTildes(), StripAll())
  }

  predicate AtMostOneDot(k: string) {
    |Split(k)| <= 2
  }

  /** What an update leaves alone: no key has more than one dot, no leaf key a tilde, and
      no other key is what a leaf key beside it is stored under. */
  ghost predicate Settled(c: Json)
    decreases c
  {
    match c
    case Arr(xs) => forall i | 0 <= i < |xs| :: Settled(xs[i])
    case Obj(m) =>
      && (forall k | k in m :: AtMostOneDot(k) && (m[k].IsLeaf() ==> TildeFree(k)))
      && (forall k, l | k in m && l in m && m[k].IsLeaf() && !m[l].IsLeaf() :: ToTildes(k) != l)
      && (forall k | k in m :: Settled(m[k]))
    case _ => true
  }

  /** What an update makes of a key. */
  lemma UpdatedKey(leaf: bool, k: string)
    ensures UpdateWalks().Read(leaf, k) == Strip(if leaf then ToDots(k) else k)
    ensures UpdateWalks().Read(leaf, k) == k <==> AtMostOneDot(k) && (leaf ==> TildeFree(k))
    ensures leaf ==> TildeFree(UpdateWalks().Read(leaf, k))
  {
    DotsAbsorbTildes(k);
    DotsAreTildeFree(k);
    StripTildeFree(ToDots(k));
    StripKeepsShort(k);
  }

  lemma UpdateKeysOnto(leaf: bool, keys: set<string>)
    requires Onto(UpdateWalks().Reader(leaf), keys)
    ensures FixesAll(UpdateWalks().Reader(leaf), keys)
  {
    var f := UpdateWalks().Reader(leaf);
    forall k | k in keys ensures f(k) == Strip(k) && HasPreimage(Strip, keys, k) {
      assert HasPreimage(f, keys, k);
      var l :| l in keys && f(l) == k;
      UpdatedKey(leaf, l);
      UpdatedKey(leaf, k);
      DotsAreTildeFree(k);
      assert HasPreimage(f, keys, l);
      var l' :| l' in keys && f(l') == l;
      UpdatedKey(leaf, l');
      DotsAreTildeFree(l);
      assert Strip(l) == k;
    }
    StripOntoMeansFixed(keys);
  }

  lemma UpdateWalksFixed()
    ensures UpdateWalks().Simple() && UpdateWalks().OntoOnlyFixed()
  {
    var w := UpdateWalks();
    forall leaf, keys | Onto(w.Reader(leaf), keys) ensures FixesAll(w.Reader(leaf), keys) {
      UpdateKeysOnto(leaf, keys);
    }
  }

  lemma {:induction false} SettledIsKept(c: Json)
    ensures Settled(c) <==> Kept(UpdateWalks(), c)
    decreases c
  {
    var w := UpdateWalks();
    match c
    case Arr(xs) => forall i | 0 <= i < |xs| ensures Settled(xs[i]) <==> Kept(w, xs[i]) { SettledIsKept(xs[i]); }
    case Obj(m) =>
      forall k | k in m ensures Settled(m[k]) <==> Kept(w, m[k]) { SettledIsKept(m[k]); }
      forall leaf, k ensures w.Read(leaf, k) == k <==> AtMostOneDot(k) && (leaf ==> TildeFree(k)) {
        UpdatedKey(leaf, k);
      }
      forall k, l, leaf | w.Read(leaf, k) == k && w.Read(leaf, l) == l
        ensures w.Stored(leaf, k) == w.Stored(leaf, l) ==> k == l
      {
        SameKindApart(w, leaf, k, l);
      }
    case _ =>
  }

  /** For every condition and every iteration order: an update leaves it alone if and
      only if it is settled. */
  lemma UpdateKeepsCondition(v: Json, w: Json)
    requires Updated(v, w)
    ensures w == v <==> Settled(v)
  {
    var s :| Renames(Encode(), v, s) && Decoded(s, w);
    var mid :| Renames(UndoTildes(), s, mid) && Renames(StripAll(), mid, w);
    KeepRenames(v);
    UpdateWalksFixed();
    ReturnsIffKept(UpdateWalks(), Trees(v, v, s, mid, w));
    SettledIsKept(v);
  }

  // ---------------------------------------------------------------- repeated updates

  /** What n updates make of a key: the first undoes the tildes of a leaf key, each strips
      one component. */
  function UpdateKey(n: nat): KeyMap {
    (leaf, k) => StripTimes(n, if leaf && n > 0 then ToDots(k) else k)
  }

  /** Every key of out is what f makes of a key of c, down the whole tree: nothing is
      invented. With Renames also nothing is missing. */
  ghost predicate Descends(f: KeyMap, c: Json, out: Json)
    decreases c
  {
    match c
    case Arr(xs) => out.Arr? && |out.items| == |xs| && forall i | 0 <= i < |xs| :: Descends(f, xs[i], out.items[i])
    case Obj(m) =>
      out.Obj? && forall q | q in out.fields :: exists k | k in m ::
        NewKey(f, m, k) == q && Descends(f, m[k], out.fields[q])
    case _ => out == c
  }

  ghost function Ancestor(f: KeyMap, c: Json, out: Json, q: string): (k: string)
    requires c.Obj? && Descends(f, c, out) && q in out.fields
    ensures k in c.fields && NewKey(f, c.fields, k) == q && Descends(f, c.fields[k], out.fields[q])
    ensures out.fields[q].IsLeaf() == c.fields[k].IsLeaf()
  {
    var k :| k in c.fields && NewKey(f, c.fields, k) == q && Descends(f, c.fields[k], out.fields[q]);
    k
  }

  lemma {:induction false} RenamedDescends(f: KeyMap, c: Json, out: Json)
    requires Renames(f, c, out)
    ensures Descends(f, c, out)
    decreases c
  {
    match c
    case Arr(xs) =>
      forall i | 0 <= i < |xs| ensures Descends(f, xs[i], out.items[i]) { RenamedDescends(f, xs[i], out.items[i]); }
    case Obj(m) =>
      forall q | q in out.fields ensures exists k | k in m :: NewKey(f, m, k) == q && Descends(f, m[k], out.fields[q]) {
        var k := Source(f, c, q, out.fields[q]);
        RenamedDescends(f, m[k], out.fields[q]);
      }
    case _ =>
  }

  lemma {:induction false} DescendsThen(f: KeyMap, g: KeyMap, h: KeyMap, c: Json, mid: Json, out: Json)
    requires Then(f, g, h) && Descends(f, c, mid) && Descends(g, mid, out)
    ensures Descends(h, c, out)
    decreases c
  {
    match c
    case Arr(xs) =>
      forall i | 0 <= i < |xs| ensures Descends(h, xs[i], out.items[i]) {
        DescendsThen(f, g, h, xs[i], mid.items[i], out.items[i]);
      }
    case Obj(m) =>
      forall q | q in out.fields ensures exists k | k in m :: NewKey(h, m, k) == q && Descends(h, m[k], out.fields[q]) {
        var l := Ancestor(g, mid, out, q);
        var k := Ancestor(f, c, mid, l);
        DescendsThen(f, g, h, m[k], mid.fields[l], out.fields[q]);
      }
    case _ =>
  }

  function DecodedKey(): KeyMap {
    (leaf, k) => if leaf then ToDots(k) else k
  }

  lemma UpdateSteps()
    ensures Then(Encode(), UndoTildes(), DecodedKey()) && Then(DecodedKey(), StripAll(), UpdateKey(1))
  {
    forall k: string ensures ToDots(ToTildes(k)) == ToDots(k) { DotsAbsorbTildes(k); }
    forall k: string ensures StripTimes(1, k) == Strip(k) { assert StripTimes(0, Strip(k)) == Strip(k); }
  }

  lemma UpdateAgain(n: nat)
    requires n > 0
    ensures Then(UpdateKey(1), UpdateKey(n - 1), UpdateKey(n))
  {
    forall leaf, k ensures UpdateKey(n)(leaf, k) == UpdateKey(n - 1)(leaf, UpdateKey(1)(leaf, k)) {
      KeyUpdatedAgain(n, leaf, k);
    }
  }

  lemma KeyUpdatedAgain(n: nat, leaf: bool, k: string)
    requires n > 0
    ensures UpdateKey(1)(leaf, k) == Strip(if leaf then ToDots(k) else k)
    ensures UpdateKey(n)(leaf, k) == UpdateKey(n - 1)(leaf, UpdateKey(1)(leaf, k))
  {
    var x := if leaf then ToDots(k) else k;
    assert StripTimes(1, x) == StripTimes(0, Strip(x)) == Strip(x);
    assert StripTimes(n, x) == StripTimes(n - 1, Strip(x));
    if leaf {
      DotsAreTildeFree(k);
      StripTildeFree(x);
      DotsAreTildeFree(Strip(x));
      assert ToDots(Strip(x)) == Strip(x);
    }
  }

  lemma OneUpdate(v: Json, w: Json)
    requires Updated(v, w)
    ensures Descends(UpdateKey(1), v, w)
  {
    var s :| Renames(Encode(), v, s) && Decoded(s, w);
    var mid :| Renames(UndoTildes(), s, mid) && Renames(StripAll(), mid, w);
    UpdateSteps();
    RenamedDescends(Encode(), v, s);
    RenamedDescends(UndoTildes(), s, mid);
    RenamedDescends(StripAll(), mid, w);
    DescendsThen(Encode(), UndoTildes(), DecodedKey(), v, s, mid);
    DescendsThen(DecodedKey(), StripAll(), UpdateKey(1), v, mid, w);
  }

  /** For every condition and every iteration order, n updates strip every key n times:
      by StripTimesMeaning a name with m components behind the first loses min(n, m - 1)
      of them. */
  lemma {:induction false} RepeatedUpdates(n: nat, v: Json, w: Json)
    requires UpdatedTimes(n, v, w)
    ensures Descends(UpdateKey(n), v, w)
  {
    if n == 0 {
      forall leaf, k ensures UpdateKey(0)(leaf, k) == k { assert StripTimes(0, k) == k; }
      RenamesSelf(UpdateKey(0), v);
      RenamedDescends(UpdateKey(0), v, v);
    } else {
      var u :| Updated(v, u) && UpdatedTimes(n - 1, u, w);
      OneUpdate(v, u);
      RepeatedUpdates(n - 1, u, w);
      UpdateAgain(n);
      DescendsThen(UpdateKey(1), UpdateKey(n - 1), UpdateKey(n), v, u, w);
    }
  }

  lemma {:induction false} RenamesSelf(f: KeyMap, c: Json)
    requires forall leaf, k :: f(leaf, k) == k
    ensures Renames(f, c, c)
    decreases c
  {
    match c
    case Arr(xs) => forall i | 0 <= i < |xs| ensures Renames(f, xs[i], xs[i]) { RenamesSelf(f, xs[i]); }
    case Obj(m) =>
      forall k | k in m ensures HasSource(f, c, k, m[k]) {
        RenamesSelf(f, m[k]);
        assert NewKey(f, m, k) == k;
      }
    case _ =>
  }

  /** The name a key is stored under by the update after i others. */
  function StoredAfter(i: nat): KeyMap {
    (leaf, k) => Encode()(leaf, UpdateKey(i)(leaf, k))
  }

  /** In none of n updates are two fields of one object stored under one name. */
  ghost predicate StoredApart(n: nat, c: Json) {
    forall i | 0 <= i < n :: NoCollision(StoredAfter(i), c)
  }

  /** Two walks after one another leave every key somewhere, if the second treats alike
      the keys that the first may have made collide. */
  lemma {:induction false} ComposeAlike(f: KeyMap, g: KeyMap, h: KeyMap, c: Json, mid: Json, out: Json)
    requires Then(f, g, h) && Renames(f, c, mid) && Renames(g, mid, out)
    requires forall b, b', k, l | f(b, k) == f(b', l) :: g(b, f(b, k)) == g(b', f(b', l))
    ensures Renames(h, c, out)
    decreases c
  {
    match c
    case Arr(xs) =>
      forall i | 0 <= i < |xs| ensures Renames(h, xs[i], out.items[i]) {
        ComposeAlike(f, g, h, xs[i], mid.items[i], out.items[i]);
      }
    case Obj(m) =>
      forall k | k in m ensures NewKey(h, m, k) in out.fields { StillThere(f, g, h, c, mid, out, k); }
      forall q | q in out.fields ensures HasSource(h, c, q, out.fields[q]) {
        var l := Source(g, mid, q, out.fields[q]);
        var k := Source(f, c, l, mid.fields[l]);
        SameShape(f, m[k], mid.fields[l]);
        ComposeAlike(f, g, h, m[k], mid.fields[l], out.fields[q]);
      }
    case _ =>
  }

  lemma StillThere(f: KeyMap, g: KeyMap, h: KeyMap, c: Json, mid: Json, out: Json, k: string)
    requires Then(f, g, h) && c.Obj? && Renames(f, c, mid) && Renames(g, mid, out) && k in c.fields
    requires forall b, b', k, l | f(b, k) == f(b', l) :: g(b, f(b, k)) == g(b', f(b', l))
    ensures NewKey(h, c.fields, k) in out.fields
  {
    var l := NewKey(f, c.fields, k);
    var k' := Source(f, c, l, mid.fields[l]);
    SameShape(f, c.fields[k'], mid.fields[l]);
    assert NewKey(g, mid.fields, l) in out.fields;
  }

  lemma OneUpdateComplete(v: Json, w: Json)
    requires Updated(v, w) && NoCollision(Encode(), v)
    ensures Renames(UpdateKey(1), v, w)
  {
    var s :| Renames(Encode(), v, s) && Decoded(s, w);
    var mid :| Renames(UndoTildes(), s, mid) && Renames(StripAll(), mid, w);
    UpdateSteps();
    Compose(Encode(), UndoTildes(), DecodedKey(), v, s, mid);
    ComposeAlike(DecodedKey(), StripAll(), UpdateKey(1), v, mid, w);
  }

  /** After the first update the keys that are spelled alike are updated alike. */
  lemma AlikeAfterFirst(n: nat, b: bool, k: string, b': bool, l: string)
    requires UpdateKey(1)(b, k) == UpdateKey(1)(b', l)
    ensures UpdateKey(n)(b, UpdateKey(1)(b, k)) == UpdateKey(n)(b', UpdateKey(1)(b', l))
  {
    KeyUpdatedAgain(1, b, k);
    KeyUpdatedAgain(1, b', l);
    DotsAreTildeFree(k);
    DotsAreTildeFree(l);
    StripTildeFree(ToDots(k));
    StripTildeFree(ToDots(l));
    DotsAreTildeFree(UpdateKey(1)(b, k));
  }

  lemma {:induction false} ApartBelow(i: nat, v: Json, u: Json)
    requires Renames(UpdateKey(1), v, u) && NoCollision(StoredAfter(i + 1), v)
    ensures NoCollision(StoredAfter(i), u)
    decreases v
  {
    match v
    case Arr(xs) =>
      forall j | 0 <= j < |xs| ensures NoCollision(StoredAfter(i), u.items[j]) { ApartBelow(i, xs[j], u.items[j]); }
    case Obj(m) =>
      forall x | x in u.fields ensures NoCollision(StoredAfter(i), u.fields[x]) {
        var k := Source(UpdateKey(1), v, x, u.fields[x]);
        ApartBelow(i, m[k], u.fields[x]);
      }
      forall x, y | x in u.fields && y in u.fields
        && NewKey(StoredAfter(i), u.fields, x) == NewKey(StoredAfter(i), u.fields, y)
        ensures x == y
      {
        var k := StoredSource(i, v, u, x);
        var l := StoredSource(i, v, u, y);
      }
    case _ =>
  }

  lemma StoredSource(i: nat, v: Json, u: Json, x: string) returns (k: string)
    requires v.Obj? && Renames(UpdateKey(1), v, u) && x in u.fields
    ensures k in v.fields && NewKey(UpdateKey(1), v.fields, k) == x
    ensures NewKey(StoredAfter(i + 1), v.fields, k) == NewKey(StoredAfter(i), u.fields, x)
  {
    k := Source(UpdateKey(1), v, x, u.fields[x]);
    SameShape(UpdateKey(1), v.fields[k], u.fields[x]);
    KeyUpdatedAgain(i + 1, v.fields[k].IsLeaf(), k);
  }

  /** And if no update stores two fields of one object under one name, what every key is
      stripped to is still there. Where two keys are stripped to one name, one field is left
      of the two. */
  lemma {:induction false} EveryNameLeft(n: nat, v: Json, w: Json)
    requires UpdatedTimes(n, v, w) && StoredApart(n, v)
    ensures Renames(UpdateKey(n), v, w)
  {
    if n == 0 {
      forall leaf, k ensures UpdateKey(0)(leaf, k) == k { assert StripTimes(0, k) == k; }
      RenamesSelf(UpdateKey(0), v);
    } else {
      var u :| Updated(v, u) && UpdatedTimes(n - 1, u, w);
      FirstApart(v, n);
      OneUpdateComplete(v, u);
      forall i | 0 <= i < n - 1 ensures NoCollision(StoredAfter(i), u) { ApartBelow(i, v, u); }
      EveryNameLeft(n - 1, u, w);
      UpdateAgain(n);
      forall b, b', k, l | UpdateKey(1)(b, k) == UpdateKey(1)(b', l)
        ensures UpdateKey(n - 1)(b, UpdateKey(1)(b, k)) == UpdateKey(n - 1)(b', UpdateKey(1)(b', l))
      {
        AlikeAfterFirst(n - 1, b, k, b', l);
      }
      ComposeAlike(UpdateKey(1), UpdateKey(n - 1), UpdateKey(n), v, u, w);
    }
  }

  lemma FirstApart(v: Json, n: nat)
    requires n > 0 && StoredApart(n, v)
    ensures NoCollision(Encode(), v)
  {
    assert NoCollision(StoredAfter(0), v);
    forall leaf, k ensures StoredAfter(0)(leaf, k) == Encode()(leaf, k) {
      assert UpdateKey(0)(leaf, k) == StripTimes(0, k) == k;
    }
    SameCollisions(StoredAfter(0), Encode(), v);
  }

  lemma {:induction false} SameCollisions(f: KeyMap, g: KeyMap, c: Json)
    requires NoCollision(f, c) && forall leaf, k :: f(leaf, k) == g(leaf, k)
    ensures NoCollision(g, c)
    decreases c
  {
    match c
    case Arr(xs) => forall i | 0 <= i < |xs| ensures NoCollision(g, xs[i]) { SameCollisions(f, g, xs[i]); }
    case Obj(m) => forall k | k in m ensures NoCollision(g, m[k]) { SameCollisions(f, g, m[k]); }
    case _ =>
  }

  // ---------------------------------------------------------------- when updates settle

  /** No key has more than m components, tildes of leaf keys counted as dots. */
  ghost predicate NoLonger(m: nat, c: Json)
    decreases c
  {
    match c
    case Arr(xs) => forall i | 0 <= i < |xs| :: NoLonger(m, xs[i])
    case Obj(fs) => forall k | k in fs :: |Split(if fs[k].IsLeaf() then ToDots(k) else k)| <= m && NoLonger(m, fs[k])
    case _ => true
  }

  /** No leaf key is stored under the name of an object or array beside it. */
  ghost predicate NoOverwrite(c: Json)
    decreases c
  {
    match c
    case Arr(xs) => forall i | 0 <= i < |xs| :: NoOverwrite(xs[i])
    case Obj(m) =>
      && (forall k, l | k in m && l in m && m[k].IsLeaf() && !m[l].IsLeaf() :: ToTildes(k) != l)
      && (forall k | k in m :: NoOverwrite(m[k]))
    case _ => true
  }

  /** Once n reaches the longest key, a further update changes nothing if and only if it
      overwrites nothing. */
  lemma UpdatesSettle(n: nat, v: Json, w: Json, w': Json)
    requires n > 0 && NoLonger(n + 2, v) && UpdatedTimes(n, v, w) && Updated(w, w')
    ensures w' == w <==> NoOverwrite(w)
  {
    RepeatedUpdates(n, v, w);
    ShortAfter(n, v, w);
    UpdateKeepsCondition(w, w');
  }

  lemma ShortKey(n: nat, leaf: bool, k: string)
    requires n > 0 && |Split(if leaf then ToDots(k) else k)| <= n + 2
    ensures AtMostOneDot(UpdateKey(n)(leaf, k)) && (leaf ==> TildeFree(UpdateKey(n)(leaf, k)))
  {
    var x := if leaf then ToDots(k) else k;
    StripTimesMeaning(n, x);
    if leaf {
      DotsAreTildeFree(k);
      StripsTildeFree(n, x);
    }
  }

  lemma {:induction false} StripsTildeFree(n: nat, k: string)
    requires TildeFree(k)
    ensures TildeFree(StripTimes(n, k))
  {
    if n > 0 {
      StripTildeFree(k);
      StripsTildeFree(n - 1, Strip(k));
    }
  }

  lemma {:induction false} ShortAfter(n: nat, v: Json, w: Json)
    requires n > 0 && NoLonger(n + 2, v) && Descends(UpdateKey(n), v, w)
    ensures Settled(w) <==> NoOverwrite(w)
    decreases v
  {
    match v
    case Arr(xs) =>
      forall i | 0 <= i < |xs| ensures Settled(w.items[i]) <==> NoOverwrite(w.items[i]) {
        ShortAfter(n, xs[i], w.items[i]);
      }
    case Obj(m) =>
      forall q | q in w.fields
        ensures AtMostOneDot(q) && (w.fields[q].IsLeaf() ==> TildeFree(q))
        ensures Settled(w.fields[q]) <==> NoOverwrite(w.fields[q])
      {
        var k := Ancestor(UpdateKey(n), v, w, q);
        ShortKey(n, m[k].IsLeaf(), k);
        ShortAfter(n, m[k], w.fields[q]);
      }
    case _ =>
  }

  // ---------------------------------------------------------------- the whole trigger

  /** TriggerDB.PutTrigger up to the write: set Enabled, marshal, encode everything. */
  method UpdatedDocument(trigger: Trigger, enabled: bool) returns (doc: Fields)
    ensures Renames(Encode(), Obj(TriggerTree(trigger.(enabled := enabled))), Obj(doc))
  {
    doc := HandleDotTildeMap(TriggerTree(trigger.(enabled := enabled)), ToTildes);
  }

  /** No leaf key of the tree has a dot. */
  ghost predicate LeafKeysDotFree(c: Json)
    decreases c
  {
    match c
    case Arr(xs) => forall i | 0 <= i < |xs| :: LeafKeysDotFree(xs[i])
    case Obj(m) => forall k | k in m :: (m[k].IsLeaf() ==> DotFree(k)) && LeafKeysDotFree(m[k])
    case _ => true
  }

  lemma ToTildesDotFree(k: string)
    ensures DotFree(ToTildes(k))
    ensures ToTildes(k) == k <==> DotFree(k)
  {
    if DotFree(k) { assert forall i | 0 <= i < |k| :: k[i] in k; }
  }

  /** Encoding leaves a tree alone exactly when no leaf key has a dot. */
  lemma {:induction false} EncodeKeeps(c: Json, out: Json)
    requires Renames(Encode(), c, out)
    ensures out == c <==> LeafKeysDotFree(c)
    decreases c
  {
    match c
    case Arr(xs) =>
      forall i | 0 <= i < |xs| ensures out.items[i] == xs[i] <==> LeafKeysDotFree(xs[i]) {
        EncodeKeeps(xs[i], out.items[i]);
      }
      if LeafKeysDotFree(c) { assert out.items == xs; }
    case Obj(m) =>
      if LeafKeysDotFree(c) { EncodeKeepsDotFree(c, out); }
      if out == c {
        forall k | k in m ensures (m[k].IsLeaf() ==> DotFree(k)) && LeafKeysDotFree(m[k]) {
          var l := Source(Encode(), c, k, m[k]);
          ToTildesDotFree(l);
          SameShape(Encode(), m[l], m[k]);
          if !m[k].IsLeaf() { EncodeKeeps(m[k], m[k]); }
        }
      }
    case _ =>
  }

  lemma EncodeKeepsDotFree(c: Json, out: Json)
    requires c.Obj? && Renames(Encode(), c, out) && LeafKeysDotFree(c)
    ensures out == c
    decreases c, 0
  {
    var m := c.fields;
    forall k | k in m ensures NewKey(Encode(), m, k) == k { ToTildesDotFree(k); }
    forall q | q in out.fields ensures q in m && out.fields[q] == m[q] {
      var k := Source(Encode(), c, q, out.fields[q]);
      EncodeKeeps(m[k], out.fields[q]);
    }
    assert out.fields == m;
  }

  /** t with its condition and its job's data replaced. */
  function WithTrees(t: Trigger, condition: Fields, data: Fields): Trigger {
    t.(condition := condition, job := t.job.(jobType := t.job.jobType.(data := data)))
  }

  ghost predicate KeepsDotFree(f: KeyMap) {
    forall leaf, k | DotFree(k) :: f(leaf, k) == k
  }

  /** out has the keys of the object c, each value walked by f. */
  ghost predicate SameNames(f: KeyMap, c: Json, out: Json)
    requires c.Obj?
  {
    && out.Obj? && out.fields.Keys == c.fields.Keys
    && forall k | k in c.fields :: Renames(f, c.fields[k], out.fields[k])
  }

  /** An object whose own keys are dot-free keeps them. */
  lemma PlainNames(f: KeyMap, c: Json, out: Json)
    requires c.Obj? && KeepsDotFree(f) && Renames(f, c, out) && forall k | k in c.fields :: DotFree(k)
    ensures SameNames(f, c, out)
  {
    forall q | q in out.fields ensures q in c.fields && Renames(f, c.fields[q], out.fields[q]) {
      var k := Source(f, c, q, out.fields[q]);
    }
    forall k | k in c.fields ensures k in out.fields { assert NewKey(f, c.fields, k) in out.fields; }
  }

  lemma FixedNames(t: Trigger)
    ensures forall k | k in TriggerTree(t) :: DotFree(k)
    ensures forall k | k in JobTree(t.job).fields :: DotFree(k)
    ensures forall k | k in JobTypeTree(t.job.jobType).fields :: DotFree(k)
  {
  }

  /** An encoded trigger is a trigger again, with only condition and job data renamed. */
  lemma EncodedTrigger(f: KeyMap, t: Trigger, doc: Fields) returns (condition: Fields, data: Fields)
    requires KeepsDotFree(f) && Renames(f, Obj(TriggerTree(t)), Obj(doc))
    ensures Renames(f, Obj(t.condition), Obj(condition))
    ensures Renames(f, Obj(t.job.jobType.data), Obj(data))
    ensures doc == TriggerTree(WithTrees(t, condition, data))
  {
    FixedNames(t);
    PlainNames(f, Obj(TriggerTree(t)), Obj(doc));
    var job;
    condition, job := TriggerFields(f, t, doc);
    PlainNames(f, JobTree(t.job), job);
    var jobType := JobFields(f, t.job, job);
    PlainNames(f, JobTypeTree(t.job.jobType), jobType);
    data := JobTypeFields(f, t.job.jobType, jobType);
    RebuiltTrigger(t, doc, condition, data);
  }

  lemma JobTypeFields(f: KeyMap, j: JobType, out: Json) returns (data: Fields)
    requires SameNames(f, JobTypeTree(j), out)
    ensures Renames(f, Obj(j.data), Obj(data)) && out == JobTypeTree(j.(data := data))
  {
    var m := JobTypeTree(j).fields;
    assert Renames(f, m["data"], out.fields["data"]) && Renames(f, m["type"], out.fields["type"]);
    data := out.fields["data"].fields;
    assert m.Keys == {"data", "type"};
    assert out.fields == JobTypeTree(j.(data := data)).fields;
  }

  lemma JobFields(f: KeyMap, j: JobRequest, out: Json) returns (jobType: Json)
    requires SameNames(f, JobTree(j), out)
    ensures Renames(f, JobTypeTree(j.jobType), jobType)
    ensures out == Obj(map["createdBy" := Str(j.createdBy), "jobType" := jobType])
  {
    var m := JobTree(j).fields;
    assert Renames(f, m["createdBy"], out.fields["createdBy"]) && Renames(f, m["jobType"], out.fields["jobType"]);
    jobType := out.fields["jobType"];
    assert m.Keys == {"createdBy", "jobType"};
    assert out.fields == map["createdBy" := Str(j.createdBy), "jobType" := jobType];
  }

  lemma TriggerFields(f: KeyMap, t: Trigger, doc: Fields) returns (condition: Fields, job: Json)
    requires SameNames(f, Obj(TriggerTree(t)), Obj(doc))
    ensures Renames(f, Obj(t.condition), Obj(condition)) && Renames(f, JobTree(t.job), job)
    ensures doc == TriggerTree(t)["condition" := Obj(condition)]["job" := job]
  {
    TriggerLeaves(t);
    AllButTwo(f, TriggerTree(t), doc, "condition", "job");
    condition, job := doc["condition"].fields, doc["job"];
  }

  lemma TriggerLeaves(t: Trigger)
    ensures var m := TriggerTree(t);
            && "condition" in m && m["condition"] == Obj(t.condition)
            && "job" in m && m["job"] == JobTree(t.job)
            && forall k | k in m && k != "condition" && k != "job" :: m[k].IsLeaf()
  {
  }

  lemma AllButTwo(f: KeyMap, m: Fields, out: Fields, a: string, b: string)
    requires SameNames(f, Obj(m), Obj(out)) && a in m && b in m
    requires forall k | k in m && k != a && k != b :: m[k].IsLeaf()
    ensures Renames(f, m[a], out[a]) && Renames(f, m[b], out[b])
    ensures out == m[a := out[a]][b := out[b]]
  {
    forall k | k in m && k != a && k != b ensures out[k] == m[k] {
      assert Renames(f, m[k], out[k]);
    }
  }

  lemma RebuiltTrigger(t: Trigger, doc: Fields, condition: Fields, data: Fields)
    requires doc == TriggerTree(t)["condition" := Obj(condition)]["job" :=
                      JobTree(t.job.(jobType := t.job.jobType.(data := data)))]
    ensures doc == TriggerTree(WithTrees(t, condition, data))
  {
  }

  /** What a reader sees of a trigger stored by an update: the stored trigger with
      its condition decoded. */
  ghost predicate ReadBack(doc: Fields, seen: Trigger) {
    exists stored: Trigger ::
      doc == TriggerTree(stored) && seen == stored.(condition := seen.condition)
      && Decoded(Obj(stored.condition), Obj(seen.condition))
  }

  lemma TriggerTreeInjective(s: Trigger, t: Trigger)
    requires TriggerTree(s) == TriggerTree(t)
    ensures s == t
  {
    var m, n := TriggerTree(s), TriggerTree(t);
    assert m["triggerId"] == n["triggerId"] && m["name"] == n["name"] && m["eventTypeId"] == n["eventTypeId"];
    assert m["condition"] == n["condition"] && m["percolationId"] == n["percolationId"];
    assert m["createdBy"] == n["createdBy"] && m["createdOn"] == n["createdOn"] && m["enabled"] == n["enabled"];
    assert m["job"] == n["job"];
    var j, i := m["job"].fields, n["job"].fields;
    assert j["createdBy"] == i["createdBy"] && j["jobType"] == i["jobType"];
    var x, y := j["jobType"].fields, i["jobType"].fields;
    assert x["data"] == y["data"] && x["type"] == y["type"];
  }

  /** PutTrigger changes nothing but Enabled in what GetTrigger's reader sees exactly
      when the condition is settled and no leaf key of the job's data has a dot. */
  lemma UpdateChangesOnlyEnabled(t: Trigger, enabled: bool, doc: Fields, seen: Trigger)
    requires Renames(Encode(), Obj(TriggerTree(t.(enabled := enabled))), Obj(doc)) && ReadBack(doc, seen)
    ensures seen == t.(enabled := enabled) <==>
            Settled(Obj(t.condition)) && LeafKeysDotFree(Obj(t.job.jobType.data))
  {
    var u := t.(enabled := enabled);
    forall leaf, k | DotFree(k) ensures Encode()(leaf, k) == k { ToTildesDotFree(k); }
    var condition, data := EncodedTrigger(Encode(), u, doc);
    var stored: Trigger :| doc == TriggerTree(stored) && seen == stored.(condition := seen.condition)
                           && Decoded(Obj(stored.condition), Obj(seen.condition));
    TriggerTreeInjective(stored, WithTrees(u, condition, data));
    EncodeKeeps(Obj(t.job.jobType.data), Obj(data));
    assert Updated(Obj(t.condition), Obj(seen.condition));
    UpdateKeepsCondition(Obj(t.condition), Obj(seen.condition));
  }
}
