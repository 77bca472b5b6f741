/** When repeated updates lose a field of a condition: counted down the whole tree, for
    every iteration order of every walk. */
module LostFields {
  import opened Json
  import opened DottedNames
  import opened ConditionKeys
  import opened ConditionTrees
  import opened TriggerConditions
  import opened TriggerUpdates

  // ---------------------------------------------------------------- counting fields

  /** The fields of all objects of the tree. */
  ghost function Count(c: Json): nat
    decreases c, 2, 0
  {
    match c
    case Arr(xs) => CountOfItems(c, xs)
    case Obj(m) => CountOfFields(c, m.Keys)
    case _ => 0
  }

  ghost function CountOfItems(c: Json, xs: seq<Json>): nat
    requires forall x | x in xs :: x < c
    decreases c, 1, |xs|
  {
    if xs == [] then 0
    else
      assert xs[0] in xs && forall x | x in xs[1..] :: x in xs;
      Count(xs[0]) + CountOfItems(c, xs[1..])
  }

  ghost function CountOfFields(c: Json, keys: set<string>): nat
    requires c.Obj? && keys <= c.fields.Keys
    decreases c, 1, |keys|
  {
    if keys == {} then 0
    else
      var k :| k in keys;
      1 + Count(c.fields[k]) + CountOfFields(c, keys - {k})
  }

  lemma {:induction false} CountWithout(c: Json, keys: set<string>, k: string)
    requires c.Obj? && keys <= c.fields.Keys && k in keys
    ensures CountOfFields(c, keys) == 1 + Count(c.fields[k]) + CountOfFields(c, keys - {k})
    decreases |keys|
  {
    var l :| l in keys && CountOfFields(c, keys) == 1 + Count(c.fields[l]) + CountOfFields(c, keys - {l});
    if l != k {
      CountWithout(c, keys - {l}, k);
      CountWithout(c, keys - {k}, l);
      assert keys - {l} - {k} == keys - {k} - {l};
    }
  }

  /** Fewer keys, fewer fields. */
  lemma {:induction false} CountOfSome(c: Json, some: set<string>, keys: set<string>)
    requires c.Obj? && some <= keys <= c.fields.Keys
    ensures CountOfFields(c, some) <= CountOfFields(c, keys)
    ensures CountOfFields(c, some) == CountOfFields(c, keys) <==> some == keys
    decreases |keys - some|
  {
    if k :| k in keys && k !in some {
      CountWithout(c, keys, k);
      CountOfSome(c, some, keys - {k});
    } else {
      assert some == keys;
    }
  }

  // ---------------------------------------------------------------- what one walk loses

  /** One of these keys is renamed to q. */
  ghost predicate SourceIn(f: KeyMap, m: Fields, from: set<string>, q: string) {
    exists k :: k in from && k in m && NewKey(f, m, k) == q
  }

  /** The keys that the fields of an outcome were written for, one for each. */
  ghost predicate Sources(f: KeyMap, m: Fields, keys: set<string>, from: set<string>) {
    && from <= m.Keys
    && (forall k | k in from :: NewKey(f, m, k) in keys)
    && (forall q | q in keys :: SourceIn(f, m, from, q))
    && (forall k, l | k in from && l in from && NewKey(f, m, k) == NewKey(f, m, l) :: k == l)
  }

  lemma OneMoreSource(f: KeyMap, m: Fields, keys: set<string>, q: string, rest: set<string>, k: string)
    requires q in keys && Sources(f, m, keys - {q}, rest) && k in m && NewKey(f, m, k) == q
    ensures k !in rest && Sources(f, m, keys, rest + {k})
  {
    forall p | p in keys ensures SourceIn(f, m, rest + {k}, p) {
      if p == q {
        assert k in rest + {k};
      } else {
        assert p in keys - {q};
        var l :| l in rest && l in m && NewKey(f, m, l) == p;
        assert l in rest + {k};
      }
    }
  }

  /** In the values of these keys no two keys collide. */
  ghost predicate ApartBelow(f: KeyMap, m: Fields, keys: set<string>)
    requires keys <= m.Keys
  {
    forall k | k in keys :: NoCollision(f, m[k])
  }

  ghost predicate ApartHere(f: KeyMap, m: Fields) {
    forall k, l | k in m && l in m && NewKey(f, m, k) == NewKey(f, m, l) :: k == l
  }

  /** These fields of the outcome and those they were written for. */
  ghost predicate Loses(f: KeyMap, c: Json, out: Json, keys: set<string>, from: set<string>)
    requires c.Obj? && out.Obj? && keys <= out.fields.Keys
  {
    && Sources(f, c.fields, keys, from) && CountOfFields(out, keys) <= CountOfFields(c, from)
    && (CountOfFields(out, keys) == CountOfFields(c, from) <==> ApartBelow(f, c.fields, from))
  }

  lemma OneMoreField(f: KeyMap, c: Json, out: Json, keys: set<string>, q: string, rest: set<string>, k: string)
    requires c.Obj? && out.Obj? && keys <= out.fields.Keys && q in keys && Loses(f, c, out, keys - {q}, rest)
    requires k in c.fields && NewKey(f, c.fields, k) == q && Count(out.fields[q]) <= Count(c.fields[k])
    requires Count(out.fields[q]) == Count(c.fields[k]) <==> NoCollision(f, c.fields[k])
    ensures Loses(f, c, out, keys, rest + {k})
  {
    OneMoreSource(f, c.fields, keys, q, rest, k);
    CountWithout(out, keys, q);
    CountWithout(c, rest + {k}, k);
    assert rest + {k} - {k} == rest;
    assert ApartBelow(f, c.fields, rest + {k}) <==> ApartBelow(f, c.fields, rest) && NoCollision(f, c.fields[k]);
  }

  lemma {:induction false} FieldsFrom(f: KeyMap, c: Json, out: Json, keys: set<string>) returns (from: set<string>)
    requires c.Obj? && Renames(f, c, out) && keys <= out.fields.Keys
    ensures Loses(f, c, out, keys, from)
    decreases c, 0, |keys|
  {
    from := {};
    if keys != {} {
      var q :| q in keys;
      var rest := FieldsFrom(f, c, out, keys - {q});
      var k := FieldSource(f, c, out, q);
      OneMoreField(f, c, out, keys, q, rest, k);
      from := rest + {k};
    }
  }

  lemma {:induction false} FieldSource(f: KeyMap, c: Json, out: Json, q: string) returns (k: string)
    requires c.Obj? && Renames(f, c, out) && q in out.fields
    ensures k in c.fields && NewKey(f, c.fields, k) == q && Count(out.fields[q]) <= Count(c.fields[k])
    ensures Count(out.fields[q]) == Count(c.fields[k]) <==> NoCollision(f, c.fields[k])
    decreases c, 0, 0
  {
    k := Source(f, c, q, out.fields[q]);
    WalkLoses(f, c.fields[k], out.fields[q]);
  }

  lemma AllSources(f: KeyMap, m: Fields, keys: set<string>, from: set<string>)
    requires Sources(f, m, keys, from) && forall k | k in m :: NewKey(f, m, k) in keys
    ensures from == m.Keys <==> ApartHere(f, m)
  {
    if ApartHere(f, m) {
      forall k | k in m ensures k in from {
        assert SourceIn(f, m, from, NewKey(f, m, k));
        var l :| l in from && l in m && NewKey(f, m, l) == NewKey(f, m, k);
      }
    }
  }

  lemma {:induction false} ItemsLose(f: KeyMap, c: Json, out: Json, xs: seq<Json>, ys: seq<Json>)
    requires c.Arr? && out.Arr? && |xs| == |ys| && forall i | 0 <= i < |xs| :: Renames(f, xs[i], ys[i])
    requires (forall x | x in xs :: x < c) && forall y | y in ys :: y < out
    ensures CountOfItems(out, ys) <= CountOfItems(c, xs)
    ensures CountOfItems(out, ys) == CountOfItems(c, xs) <==> forall i | 0 <= i < |xs| :: NoCollision(f, xs[i])
    decreases c, 0, |xs|
  {
    if xs != [] {
      assert xs[0] in xs && ys[0] in ys && (forall x | x in xs[1..] :: x in xs) && forall y | y in ys[1..] :: y in ys;
      WalkLoses(f, xs[0], ys[0]);
      ItemsLose(f, c, out, xs[1..], ys[1..]);
      assert forall i | 1 <= i < |xs| :: xs[i] == xs[1..][i - 1];
    }
  }

  /** For every tree, every key map and every iteration order: a walk loses no field if and
      only if it makes no two keys of one object collide, and it never makes fields up. */
  lemma {:induction false} WalkLoses(f: KeyMap, c: Json, out: Json)
    requires Renames(f, c, out)
    ensures Count(out) <= Count(c)
    ensures Count(out) == Count(c) <==> NoCollision(f, c)
    decreases c, 1, 0
  {
    match c
    case Arr(xs) => ItemsLose(f, c, out, xs, out.items);
    case Obj(m) => ObjectLoses(f, c, out);
    case _ =>
  }

  lemma {:induction false} ObjectLoses(f: KeyMap, c: Json, out: Json)
    requires c.Obj? && Renames(f, c, out)
    ensures Count(out) <= Count(c)
    ensures Count(out) == Count(c) <==> NoCollision(f, c)
    decreases c, 0, |out.fields| + 1
  {
    var from := FieldsFrom(f, c, out, out.fields.Keys);
    EveryKeyRenamed(f, c, out);
    ObjectCount(f, c, out, from);
  }

  lemma EveryKeyRenamed(f: KeyMap, c: Json, out: Json)
    requires c.Obj? && Renames(f, c, out)
    ensures out.Obj? && forall k | k in c.fields :: NewKey(f, c.fields, k) in out.fields.Keys
  {
  }

  lemma ObjectCount(f: KeyMap, c: Json, out: Json, from: set<string>)
    requires c.Obj? && out.Obj? && Loses(f, c, out, out.fields.Keys, from)
    requires forall k | k in c.fields :: NewKey(f, c.fields, k) in out.fields.Keys
    ensures Count(out) <= Count(c)
    ensures Count(out) == Count(c) <==> NoCollision(f, c)
  {
    CountOfSome(c, from, c.fields.Keys);
    AllSources(f, c.fields, out.fields.Keys, from);
    ApartEverywhere(f, c);
  }

  lemma ApartEverywhere(f: KeyMap, c: Json)
    requires c.Obj?
    ensures NoCollision(f, c) <==> ApartHere(f, c.fields) && ApartBelow(f, c.fields, c.fields.Keys)
  {
  }

  // ---------------------------------------------------------------- collisions of later walks

  /** After a walk without collisions, the next one makes keys collide exactly where the
      two together do. */
  lemma {:induction false} CollideLater(f: KeyMap, g: KeyMap, h: KeyMap, c: Json, mid: Json)
    requires Then(f, g, h) && NoCollision(f, c) && Renames(f, c, mid)
    ensures NoCollision(g, mid) <==> NoCollision(h, c)
    decreases c
  {
    match c
    case Arr(xs) =>
      forall i | 0 <= i < |xs| ensures NoCollision(g, mid.items[i]) <==> NoCollision(h, xs[i]) {
        CollideLater(f, g, h, xs[i], mid.items[i]);
      }
    case Obj(m) =>
      forall k | k in m ensures Carries(f, g, h, c, mid, k) { Carried(f, g, h, c, mid, k); }
      forall k | k in m ensures NoCollision(g, mid.fields[NewKey(f, m, k)]) <==> NoCollision(h, m[k]) {
        assert Carries(f, g, h, c, mid, k);
        CollideLater(f, g, h, m[k], mid.fields[NewKey(f, m, k)]);
      }
      CollideHere(f, g, h, c, mid);
    case _ =>
  }

  /** The field k is in the outcome, and the second walk renames it as h does k. */
  ghost predicate Carries(f: KeyMap, g: KeyMap, h: KeyMap, c: Json, mid: Json, k: string)
    requires c.Obj? && k in c.fields
  {
    var l := NewKey(f, c.fields, k);
    && mid.Obj? && l in mid.fields && Renames(f, c.fields[k], mid.fields[l])
    && NewKey(g, mid.fields, l) == NewKey(h, c.fields, k)
  }

  lemma Carried(f: KeyMap, g: KeyMap, h: KeyMap, c: Json, mid: Json, k: string)
    requires Then(f, g, h) && c.Obj? && NoCollision(f, c) && Renames(f, c, mid) && k in c.fields
    ensures Carries(f, g, h, c, mid, k)
  {
    TheSource(f, c, mid, k);
    SameShape(f, c.fields[k], mid.fields[NewKey(f, c.fields, k)]);
  }

  lemma CollideHere(f: KeyMap, g: KeyMap, h: KeyMap, c: Json, mid: Json)
    requires c.Obj? && NoCollision(f, c) && Renames(f, c, mid)
    requires forall k | k in c.fields :: Carries(f, g, h, c, mid, k)
    requires forall k | k in c.fields ::
               NoCollision(g, mid.fields[NewKey(f, c.fields, k)]) <==> NoCollision(h, c.fields[k])
    ensures NoCollision(g, mid) <==> NoCollision(h, c)
  {
    var m := c.fields;
    forall l | l in mid.fields ensures exists k :: k in m && NewKey(f, m, k) == l {
      var k := Source(f, c, l, mid.fields[l]);
    }
    if NoCollision(g, mid) {
      forall k, l | k in m && l in m && NewKey(h, m, k) == NewKey(h, m, l) ensures k == l {
        assert Carries(f, g, h, c, mid, k) && Carries(f, g, h, c, mid, l);
      }
      forall k | k in m ensures NoCollision(h, m[k]) { assert Carries(f, g, h, c, mid, k); }
    }
    if NoCollision(h, c) {
      forall x, y | x in mid.fields && y in mid.fields && NewKey(g, mid.fields, x) == NewKey(g, mid.fields, y)
        ensures x == y
      {
        var k :| k in m && NewKey(f, m, k) == x;
        var l :| l in m && NewKey(f, m, l) == y;
        assert Carries(f, g, h, c, mid, k) && Carries(f, g, h, c, mid, l);
      }
      forall x | x in mid.fields ensures NoCollision(g, mid.fields[x]) {
        var k :| k in m && NewKey(f, m, k) == x;
      }
    }
  }

  /** What collides already, collides after a walk that treats it alike. */
  lemma {:induction false} CollideStill(f: KeyMap, h: KeyMap, c: Json)
    requires NoCollision(h, c) && forall b, b', k, l | f(b, k) == f(b', l) :: h(b, k) == h(b', l)
    ensures NoCollision(f, c)
    decreases c
  {
    match c
    case Arr(xs) => forall i | 0 <= i < |xs| ensures NoCollision(f, xs[i]) { CollideStill(f, h, xs[i]); }
    case Obj(m) => forall k | k in m ensures NoCollision(f, m[k]) { CollideStill(f, h, m[k]); }
    case _ =>
  }

  // ---------------------------------------------------------------- what one update loses

  lemma UpdateLoses(v: Json, w: Json)
    requires Updated(v, w)
    ensures Count(w) <= Count(v)
    ensures Count(w) == Count(v) <==> NoCollision(Encode(), v) && NoCollision(UpdateKey(1), v)
  {
    var s :| Renames(Encode(), v, s) && Decoded(s, w);
    var mid :| Renames(UndoTildes(), s, mid) && Renames(StripAll(), mid, w);
    WalkLoses(Encode(), v, s);
    WalkLoses(UndoTildes(), s, mid);
    WalkLoses(StripAll(), mid, w);
    if NoCollision(Encode(), v) { ThreeWalks(v, s, mid); }
  }

  lemma ThreeWalks(v: Json, s: Json, mid: Json)
    requires NoCollision(Encode(), v) && Renames(Encode(), v, s) && Renames(UndoTildes(), s, mid)
    ensures NoCollision(UndoTildes(), s) && NoCollision(StripAll(), mid) <==> NoCollision(UpdateKey(1), v)
  {
    UpdateSteps();
    CollideLater(Encode(), UndoTildes(), DecodedKey(), v, s);
    Compose(Encode(), UndoTildes(), DecodedKey(), v, s, mid);
    if NoCollision(UpdateKey(1), v) {
      forall b, b', k, l | DecodedKey()(b, k) == DecodedKey()(b', l) ensures UpdateKey(1)(b, k) == UpdateKey(1)(b', l) {
        KeyUpdatedAgain(1, b, k);
        KeyUpdatedAgain(1, b', l);
      }
      CollideStill(DecodedKey(), UpdateKey(1), v);
    }
    if NoCollision(DecodedKey(), v) { CollideLater(DecodedKey(), StripAll(), UpdateKey(1), v, mid); }
  }

  // ---------------------------------------------------------------- what n updates lose

  /** No update stores two fields of one object under one name, and after the last no two
      have one name. */
  ghost predicate Lossless(n: nat, v: Json) {
    StoredApart(n, v) && NoCollision(UpdateKey(n), v)
  }

  lemma StoredLater(i: nat)
    ensures Then(UpdateKey(1), StoredAfter(i), StoredAfter(i + 1))
  {
    forall leaf, k ensures StoredAfter(i + 1)(leaf, k) == StoredAfter(i)(leaf, UpdateKey(1)(leaf, k)) {
      KeyUpdatedAgain(i + 1, leaf, k);
    }
  }

  lemma FirstOfMany(n: nat, v: Json)
    requires n > 0 && NoCollision(UpdateKey(n), v)
    ensures NoCollision(UpdateKey(1), v)
  {
    forall b, b', k, l | UpdateKey(1)(b, k) == UpdateKey(1)(b', l) ensures UpdateKey(n)(b, k) == UpdateKey(n)(b', l) {
      AlikeInTheEnd(n, b, k, b', l);
    }
    CollideStill(UpdateKey(1), UpdateKey(n), v);
  }

  lemma AlikeInTheEnd(n: nat, b: bool, k: string, b': bool, l: string)
    requires n > 0 && UpdateKey(1)(b, k) == UpdateKey(1)(b', l)
    ensures UpdateKey(n)(b, k) == UpdateKey(n)(b', l)
  {
    AlikeAfterFirst(n - 1, b, k, b', l);
    KeyUpdatedAgain(n, b, k);
    KeyUpdatedAgain(n, b', l);
  }

  lemma StoredFirst(v: Json)
    ensures NoCollision(StoredAfter(0), v) <==> NoCollision(Encode(), v)
  {
    forall leaf, k ensures StoredAfter(0)(leaf, k) == Encode()(leaf, k) {
      assert UpdateKey(0)(leaf, k) == StripTimes(0, k) == k;
    }
    if NoCollision(StoredAfter(0), v) { SameCollisions(StoredAfter(0), Encode(), v); }
    if NoCollision(Encode(), v) { SameCollisions(Encode(), StoredAfter(0), v); }
  }

  /** The first of n updates and the others. */
  lemma LosslessStep(n: nat, v: Json, u: Json)
    requires n > 0 && Updated(v, u)
    ensures Lossless(n, v) <==> NoCollision(Encode(), v) && NoCollision(UpdateKey(1), v) && Lossless(n - 1, u)
  {
    StoredFirst(v);
    if NoCollision(UpdateKey(n), v) { FirstOfMany(n, v); }
    assert StoredApart(n, v) ==> NoCollision(StoredAfter(0), v);
    if NoCollision(Encode(), v) && NoCollision(UpdateKey(1), v) {
      OneUpdateComplete(v, u);
      UpdateAgain(n);
      CollideLater(UpdateKey(1), UpdateKey(n - 1), UpdateKey(n), v, u);
      forall i: nat ensures NoCollision(StoredAfter(i), u) <==> NoCollision(StoredAfter(i + 1), v) {
        StoredLater(i);
        CollideLater(UpdateKey(1), StoredAfter(i), StoredAfter(i + 1), v, u);
      }
      StoredApartLater(n, v, u);
    }
  }

  lemma StoredApartLater(n: nat, v: Json, u: Json)
    requires n > 0 && NoCollision(StoredAfter(0), v)
    requires forall i: nat :: NoCollision(StoredAfter(i), u) <==> NoCollision(StoredAfter(i + 1), v)
    ensures StoredApart(n, v) <==> StoredApart(n - 1, u)
  {
    if StoredApart(n - 1, u) {
      forall i: nat | i < n ensures NoCollision(StoredAfter(i), v) {
        if i > 0 { assert NoCollision(StoredAfter(i - 1), u); }
      }
    }
    if StoredApart(n, v) {
      forall i: nat | i < n - 1 ensures NoCollision(StoredAfter(i), u) { assert NoCollision(StoredAfter(i + 1), v); }
    }
  }

  lemma NoUpdate(v: Json)
    ensures Lossless(0, v)
  {
    forall leaf, k ensures UpdateKey(0)(leaf, k) == k { assert StripTimes(0, k) == k; }
    AllKeysAny(v);
    InjectiveNoCollision(UpdateKey(0), ANY_KEY, v);
  }

  lemma {:induction false} UpdatesCount(n: nat, v: Json, w: Json)
    requires UpdatedTimes(n, v, w)
    ensures Count(w) <= Count(v)
    ensures Count(w) == Count(v) <==> Lossless(n, v)
  {
    if n == 0 {
      NoUpdate(v);
    } else {
      var u := FirstUpdate(n, v, w);
      UpdatesCount(n - 1, u, w);
      CountsAdd(n, v, u, w);
    }
  }

  lemma CountsAdd(n: nat, v: Json, u: Json, w: Json)
    requires n > 0 && Updated(v, u) && Count(w) <= Count(u)
    requires Count(w) == Count(u) <==> Lossless(n - 1, u)
    ensures Count(w) <= Count(v)
    ensures Count(w) == Count(v) <==> Lossless(n, v)
  {
    FirstUpdateLoses(n, v, u);
  }

  lemma FirstUpdate(n: nat, v: Json, w: Json) returns (u: Json)
    requires n > 0 && UpdatedTimes(n, v, w)
    ensures Updated(v, u) && UpdatedTimes(n - 1, u, w)
  {
    u :| Updated(v, u) && UpdatedTimes(n - 1, u, w);
  }

  lemma FirstUpdateLoses(n: nat, v: Json, u: Json)
    requires n > 0 && Updated(v, u)
    ensures Count(u) <= Count(v)
    ensures Lossless(n, v) <==> Count(u) == Count(v) && Lossless(n - 1, u)
  {
    UpdateLoses(v, u);
    LosslessStep(n, v, u);
  }

  /** For every condition and every outcome of n updates: as many fields are left as there
      were, counted down the whole tree, if and only if no update stores two fields of one
      object under one name and no two are stripped to one name. Then the outcome is the
      one tree with every key stripped and every value kept. */
  lemma UpdatesLoseNothing(n: nat, v: Json, w: Json)
    requires UpdatedTimes(n, v, w)
    ensures Count(w) <= Count(v)
    ensures Count(w) == Count(v) <==> Lossless(n, v)
    ensures Lossless(n, v) ==> Renames(UpdateKey(n), v, w) && forall w' | Renames(UpdateKey(n), v, w') :: w' == w
  {
    UpdatesCount(n, v, w);
    if Lossless(n, v) {
      EveryNameLeft(n, v, w);
      forall w' | Renames(UpdateKey(n), v, w') ensures w' == w { OneOutcome(UpdateKey(n), v, w', w); }
    }
  }

  // ---------------------------------------------------------------- a clause that is lost

  lemma TermStays()
    ensures Strip("term") == "term"
  {
    SplitDotFree("term");
    StripKeepsShort("term");
  }

  /** An update of a term clause is an update of its fields, and leaves some. */
  lemma TermUpdate(m: Fields, w: Json) returns (fields: Fields)
    requires m != map[] && Updated(TermOf(m), w)
    ensures w == TermOf(fields) && Descends(UpdateKey(1), Obj(m), Obj(fields)) && fields != map[]
  {
    var s :| Renames(Encode(), TermOf(m), s) && Decoded(s, w);
    var mid :| Renames(UndoTildes(), s, mid) && Renames(StripAll(), mid, w);
    TermStays();
    var stored := Inside(Encode(), "term", m, s);
    var decoded := Inside(UndoTildes(), "term", stored, mid);
    fields := Inside(StripAll(), "term", decoded, w);
    FieldsUpdate(m, stored, decoded, fields);
  }

  lemma FieldsUpdate(m: Fields, stored: Fields, decoded: Fields, fields: Fields)
    requires Renames(Encode(), Obj(m), Obj(stored)) && Renames(UndoTildes(), Obj(stored), Obj(decoded))
    requires Renames(StripAll(), Obj(decoded), Obj(fields)) && m != map[]
    ensures Descends(UpdateKey(1), Obj(m), Obj(fields)) && fields != map[]
  {
    SomeLeft(Encode(), m, stored);
    SomeLeft(UndoTildes(), stored, decoded);
    SomeLeft(StripAll(), decoded, fields);
    assert Decoded(Obj(stored), Obj(fields));
    assert Updated(Obj(m), Obj(fields));
    OneUpdate(Obj(m), Obj(fields));
  }

  lemma SomeLeft(f: KeyMap, m: Fields, out: Fields)
    requires m != map[] && Renames(f, Obj(m), Obj(out))
    ensures out != map[]
  {
    var k :| k in m;
    assert NewKey(f, m, k) in out;
  }

  lemma OneLeft(m: Fields, fields: Fields, name: string)
    requires forall k | k in m :: m[k].IsLeaf() && NewKey(UpdateKey(1), m, k) == name
    requires Descends(UpdateKey(1), Obj(m), Obj(fields)) && fields != map[]
    ensures exists k :: k in m && fields == map[name := m[k]]
  {
    forall q | q in fields ensures q == name { var k := Ancestor(UpdateKey(1), Obj(m), Obj(fields), q); }
    assert name in fields;
    var k := Ancestor(UpdateKey(1), Obj(m), Obj(fields), name);
    assert fields == map[name := m[k]];
  }

  /** Of the fields of a term clause that an update strips to one name the trigger is read
      back with one alone, even if they were stored apart. */
  lemma UpdateLosesClauses(m: Fields, name: string, w: Json)
    requires m != map[] && forall k | k in m :: m[k].IsLeaf() && Strip(ToDots(k)) == name
    requires Updated(TermOf(m), w)
    ensures exists k :: k in m && w == TermOf(map[name := m[k]])
  {
    var fields := TermUpdate(m, w);
    forall k | k in m ensures NewKey(UpdateKey(1), m, k) == name { KeyUpdatedAgain(1, true, k); }
    OneLeft(m, fields, name);
  }

  function Named(c: string): string {
    Join(["data", c, "name"])
  }

  /** Such fields, stored apart, are `data.user.name` and `data.group.name`, and any two
      whose names differ in the second of three components. */
  lemma StripClash(a: string, b: string)
    requires a != b && DotFree(a) && DotFree(b) && TildeFree(a) && TildeFree(b)
    ensures Named(a) != Named(b) && ToTildes(Named(a)) != ToTildes(Named(b))
    ensures Strip(ToDots(Named(a))) == Strip(ToDots(Named(b)))
  {
    StripOfThree(a);
    StripOfThree(b);
    TildesInjective(Named(a), Named(b));
    assert ["data", a, "name"][1] != ["data", b, "name"][1];
  }

  /** A clause over two such fields meets the first condition of Lossless and not the
      second. */
  lemma ClashIsLost(m: Fields, k: string, l: string)
    requires k != l && m.Keys == {k, l} && m[k].IsLeaf() && m[l].IsLeaf()
    requires ToTildes(k) != ToTildes(l) && Strip(ToDots(k)) == Strip(ToDots(l))
    ensures StoredApart(1, TermOf(m)) && !Lossless(1, TermOf(m))
  {
    TwoFields(Encode(), m, k, l);
    TwoFields(UpdateKey(1), m, k, l);
    KeyUpdatedAgain(1, true, k);
    KeyUpdatedAgain(1, true, l);
    OneStored(TermOf(m));
  }

  lemma OneStored(c: Json)
    ensures StoredApart(1, c) <==> NoCollision(Encode(), c)
  {
    StoredFirst(c);
  }

  lemma TwoFields(f: KeyMap, m: Fields, k: string, l: string)
    requires k != l && m.Keys == {k, l} && m[k].IsLeaf() && m[l].IsLeaf()
    ensures NoCollision(f, TermOf(m)) <==> f(true, k) != f(true, l)
  {
    OnlyTerm(f, m);
    assert NewKey(f, m, k) == f(true, k) && NewKey(f, m, l) == f(true, l);
  }

  lemma OnlyTerm(f: KeyMap, m: Fields)
    ensures NoCollision(f, TermOf(m)) <==> NoCollision(f, Obj(m))
  {
    assert TermOf(m).fields.Keys == {"term"} && TermOf(m).fields["term"] == Obj(m);
  }

  lemma StripOfThree(c: string)
    requires DotFree(c) && TildeFree(c)
    ensures Split(Named(c)) == ["data", c, "name"] && TildeFree(Named(c))
    ensures Strip(ToDots(Named(c))) == Join(["data", "name"])
  {
    SplitJoin(["data", c, "name"]);
    Spelled(c);
    StripMeaning(Named(c));
    assert StripComponents(["data", c, "name"]) == ["data", "name"];
    JoinSplit(Strip(Named(c)));
  }

  /** Without a tilde the name is its own decoded form. */
  lemma Spelled(c: string)
    requires TildeFree(c)
    ensures TildeFree(Named(c)) && ToDots(Named(c)) == Named(c)
  {
    assert ["data", c, "name"][1..] == [c, "name"] && [c, "name"][1..] == ["name"];
    assert Join([c, "name"]) == c + "." + "name" && Named(c) == "data" + "." + (c + "." + "name");
  }
}
