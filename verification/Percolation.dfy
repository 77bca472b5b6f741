/** Why the rewriting is right: the percolator matches the rewritten condition
    against the wrapped event exactly when the user's condition holds of the event as
    the user posted it. Of the query language this models nested boolean queries over
    term, match, range and exists clauses. */
module Percolation {
  import opened Json
  import opened DottedNames
  import opened ConditionKeys
  import opened ConditionTrees
  import opened TriggerConditions

  // ---------------------------------------------------------------- evaluation

  /** What a clause asks of one value of a field. */
  datatype Test = Equals(v: Json) | InRange(bounds: Fields) | Present

  predicate Holds(t: Test, x: Json) {
    match t
    case Equals(v) => x == v && v.IsLeaf() && !v.Null?
    case InRange(bounds) => x.Num? && forall op <- bounds :: BoundHolds(WordOf(op), bounds[op], x.n)
    case Present => !x.Null? && x != Obj(map[])
  }

  datatype Word =
    | MatchAll | Query | Boolean | Term | Range | Exists | Must | Should | MustNot | Gt | Gte | Lt | Lte | Other

  /** The words of the query language. */
  function WordOf(k: string): Word {
    if !DotFree(k) then Other
    else if k == "match_all" then MatchAll
    else if k == "query" then Query
    else if k == "bool" then Boolean
    else if k == "term" || k == "match" then Term
    else if k == "range" then Range
    else if k == "exists" then Exists
    else if k == "must" || k == "filter" then Must
    else if k == "should" then Should
    else if k == "must_not" then MustNot
    else if k == "gt" then Gt
    else if k == "gte" then Gte
    else if k == "lt" then Lt
    else if k == "lte" then Lte
    else Other
  }

  predicate BoundHolds(op: Word, bound: Json, n: real) {
    bound.Num? &&
    match op
    case Gt => n > bound.n
    case Gte => n >= bound.n
    case Lt => n < bound.n
    case Lte => n <= bound.n
    case _ => false
  }

  /** Some value at the path satisfies the test; an array stands for its elements. */
  predicate Finds(doc: Json, path: seq<string>, t: Test)
    decreases doc
  {
    if doc.Arr? then exists i | 0 <= i < |doc.items| :: Finds(doc.items[i], path, t)
    else if path == [] then Holds(t, doc)
    else doc.Obj? && path[0] in doc.fields && Finds(doc.fields[path[0]], path[1..], t)
  }

  predicate Matches(c: Json, doc: Json)
    decreases c, 0
  {
    c.Obj? && forall k <- c.fields :: Clause(WordOf(k), c.fields[k], doc)
  }

  predicate Clause(k: Word, v: Json, doc: Json)
    decreases v, 2
  {
    match k
    case MatchAll => true
    case Query => Matches(v, doc)
    case Boolean => v.Obj? && forall b <- v.fields :: BoolPart(WordOf(b), v.fields[b], doc)
    case Term => v.Obj? && forall f <- v.fields :: FieldEquals(f, v.fields[f], doc)
    case Range => v.Obj? && forall f <- v.fields :: FieldInRange(f, v.fields[f], doc)
    case Exists => v.Obj? && "field" in v.fields && FieldPresent(v.fields["field"], doc)
    case _ => false
  }

  predicate FieldEquals(f: string, v: Json, doc: Json) {
    Finds(doc, Split(f), Equals(v))
  }

  predicate FieldInRange(f: string, bounds: Json, doc: Json) {
    bounds.Obj? && Finds(doc, Split(f), InRange(bounds.fields))
  }

  predicate FieldPresent(name: Json, doc: Json) {
    name.Str? && Finds(doc, Split(name.s), Present)
  }

  predicate BoolPart(b: Word, v: Json, doc: Json)
    decreases v, 1
  {
    match b
    case Must => if v.Arr? then forall i | 0 <= i < |v.items| :: Matches(v.items[i], doc) else Matches(v, doc)
    case Should => if v.Arr? then exists i | 0 <= i < |v.items| :: Matches(v.items[i], doc) else Matches(v, doc)
    case MustNot => if v.Arr? then forall i | 0 <= i < |v.items| :: !Matches(v.items[i], doc) else !Matches(v, doc)
    case _ => false
  }

  // ---------------------------------------------------------------- preservation

  /** A renaming g of keys and a change of document that undo each other for
      every lookup of a scalar. */
  ghost predicate Tracks(g: string -> string, doc: Json, doc': Json) {
    && (forall k | DotFree(k) :: g(k) == k)
    && (forall k | !DotFree(k) :: !DotFree(g(k)))
    && (forall k, t: Test | !t.Present? :: Finds(doc', Split(g(k)), t) == Finds(doc, Split(k), t))
  }

  predicate NotExists(k: string) {
    WordOf(k) != Exists
  }

  /** The rewritten condition matches the changed document as the condition matches
      the document. */
  lemma {:induction false} MatchesTracked(g: string -> string, doc: Json, doc': Json, c: Json, q: Json)
    requires Tracks(g, doc, doc') && AllKeys(NotExists, c)
    requires NoCollision(OnAll(g), c) && Renames(OnAll(g), c, q)
    ensures Matches(q, doc') == Matches(c, doc)
    decreases c, 0
  {
    if c.Obj? {
      forall k | k in c.fields
        ensures g(k) in q.fields
        ensures Clause(WordOf(g(k)), q.fields[g(k)], doc') == Clause(WordOf(k), c.fields[k], doc)
      {
        TheSource(OnAll(g), c, q, k);
        SameWord(g, doc, doc', k);
        ClauseTracked(g, doc, doc', WordOf(k), c.fields[k], q.fields[g(k)]);
      }
      SourcesCover(g, c, q);
    }
  }

  lemma SameWord(g: string -> string, doc: Json, doc': Json, k: string)
    requires Tracks(g, doc, doc')
    ensures WordOf(g(k)) == WordOf(k)
  {
  }

  lemma SourcesCover(g: string -> string, c: Json, q: Json)
    requires c.Obj? && Renames(OnAll(g), c, q)
    ensures forall l | l in q.fields :: exists k :: k in c.fields && g(k) == l
  {
    forall l | l in q.fields ensures exists k :: k in c.fields && g(k) == l {
      var k := Source(OnAll(g), c, l, q.fields[l]);
      assert g(k) == l;
    }
  }

  lemma {:induction false} ClauseTracked(g: string -> string, doc: Json, doc': Json, k: Word, v: Json, w: Json)
    requires Tracks(g, doc, doc') && AllKeys(NotExists, v) && k != Exists
    requires NoCollision(OnAll(g), v) && Renames(OnAll(g), v, w)
    ensures Clause(k, w, doc') == Clause(k, v, doc)
    decreases v, 2
  {
    if !v.Obj? {
      NotObjects(g, v, w);
      ClauseOfNonObject(k, v, doc);
      ClauseOfNonObject(k, w, doc');
    } else if k == Query {
      MatchesTracked(g, doc, doc', v, w);
    } else if k == Boolean {
      BoolTracked(g, doc, doc', v, w);
    } else if k == Term {
      TermTracked(g, doc, doc', v, w);
    } else if k == Range {
      RangeTracked(g, doc, doc', v, w);
    } else {
      OtherClause(k, doc, doc', v, w);
    }
  }

  lemma OtherClause(k: Word, doc: Json, doc': Json, v: Json, w: Json)
    requires k != Query && k != Boolean && k != Term && k != Range && k != Exists
    ensures Clause(k, w, doc') == Clause(k, v, doc)
  {
  }

  lemma ClauseOfNonObject(k: Word, v: Json, doc: Json)
    requires !v.Obj?
    ensures Clause(k, v, doc) == (k == MatchAll)
  {
  }

  lemma NotObjects(g: string -> string, v: Json, w: Json)
    requires Renames(OnAll(g), v, w) && !v.Obj?
    ensures !w.Obj?
  {
  }

  lemma {:induction false} BoolTracked(g: string -> string, doc: Json, doc': Json, v: Json, w: Json)
    requires Tracks(g, doc, doc') && v.Obj? && AllKeys(NotExists, v)
    requires NoCollision(OnAll(g), v) && Renames(OnAll(g), v, w)
    ensures Clause(Boolean, v, doc) == Clause(Boolean, w, doc')
    decreases v, 1
  {
    forall b | b in v.fields ensures SameBoolPart(g, doc, doc', v, w, b) {
      TheSource(OnAll(g), v, w, b);
      SameWord(g, doc, doc', b);
      BoolPartTracked(g, doc, doc', WordOf(b), v.fields[b], w.fields[g(b)]);
    }
    SourcesCover(g, v, w);
    SameBoolClause(g, doc, doc', v, w);
  }

  predicate SameBoolPart(g: string -> string, doc: Json, doc': Json, v: Json, w: Json, b: string)
    requires v.Obj? && w.Obj? && b in v.fields
  {
    g(b) in w.fields
    && BoolPart(WordOf(g(b)), w.fields[g(b)], doc') == BoolPart(WordOf(b), v.fields[b], doc)
  }

  lemma SameBoolClause(g: string -> string, doc: Json, doc': Json, v: Json, w: Json)
    requires v.Obj? && w.Obj? && forall b | b in v.fields :: SameBoolPart(g, doc, doc', v, w, b)
    requires forall l | l in w.fields :: exists b :: b in v.fields && g(b) == l
    ensures Clause(Boolean, v, doc) == Clause(Boolean, w, doc')
  {
    if Clause(Boolean, w, doc') {
      forall b | b in v.fields ensures BoolPart(WordOf(b), v.fields[b], doc) {
        assert SameBoolPart(g, doc, doc', v, w, b);
      }
    }
  }

  lemma {:induction false} BoolPartTracked(g: string -> string, doc: Json, doc': Json, b: Word, v: Json, w: Json)
    requires Tracks(g, doc, doc') && AllKeys(NotExists, v)
    requires NoCollision(OnAll(g), v) && Renames(OnAll(g), v, w)
    ensures BoolPart(b, w, doc') == BoolPart(b, v, doc)
    decreases v, 1
  {
    if v.Arr? {
      forall i | 0 <= i < |v.items| ensures Matches(w.items[i], doc') == Matches(v.items[i], doc) {
        MatchesTracked(g, doc, doc', v.items[i], w.items[i]);
      }
      SameBoolItems(doc, doc', b, v, w);
    } else {
      MatchesTracked(g, doc, doc', v, w);
      NotArrays(g, v, w);
      SameBoolOne(doc, doc', b, v, w);
    }
  }

  lemma NotArrays(g: string -> string, v: Json, w: Json)
    requires Renames(OnAll(g), v, w) && !v.Arr?
    ensures !w.Arr?
  {
  }

  lemma SameBoolOne(doc: Json, doc': Json, b: Word, v: Json, w: Json)
    requires !v.Arr? && !w.Arr? && Matches(w, doc') == Matches(v, doc)
    ensures BoolPart(b, w, doc') == BoolPart(b, v, doc)
  {
  }

  lemma SameBoolItems(doc: Json, doc': Json, b: Word, v: Json, w: Json)
    requires v.Arr? && w.Arr? && |v.items| == |w.items|
    requires forall i | 0 <= i < |v.items| :: Matches(w.items[i], doc') == Matches(v.items[i], doc)
    ensures BoolPart(b, w, doc') == BoolPart(b, v, doc)
  {
  }

  lemma TermTracked(g: string -> string, doc: Json, doc': Json, v: Json, w: Json)
    requires Tracks(g, doc, doc') && v.Obj?
    requires NoCollision(OnAll(g), v) && Renames(OnAll(g), v, w)
    ensures Clause(Term, v, doc) == Clause(Term, w, doc')
  {
    forall f | f in v.fields
      ensures g(f) in w.fields && FieldEquals(g(f), w.fields[g(f)], doc') == FieldEquals(f, v.fields[f], doc)
    {
      TheSource(OnAll(g), v, w, f);
      OneTermTracked(g, doc, doc', f, v.fields[f], w.fields[g(f)]);
    }
    SourcesCover(g, v, w);
  }

  lemma OneTermTracked(g: string -> string, doc: Json, doc': Json, f: string, v: Json, w: Json)
    requires Tracks(g, doc, doc') && Renames(OnAll(g), v, w)
    ensures FieldEquals(g(f), w, doc') == FieldEquals(f, v, doc)
  {
    SameShape(OnAll(g), v, w);
    if !v.IsLeaf() { SameFinds(doc, Split(f), Equals(v), Equals(w)); }
  }

  lemma RangeTracked(g: string -> string, doc: Json, doc': Json, v: Json, w: Json)
    requires Tracks(g, doc, doc') && v.Obj?
    requires NoCollision(OnAll(g), v) && Renames(OnAll(g), v, w)
    ensures Clause(Range, v, doc) == Clause(Range, w, doc')
  {
    forall f | f in v.fields
      ensures g(f) in w.fields && FieldInRange(g(f), w.fields[g(f)], doc') == FieldInRange(f, v.fields[f], doc)
    {
      TheSource(OnAll(g), v, w, f);
      OneRangeTracked(g, doc, doc', f, v.fields[f], w.fields[g(f)]);
    }
    SourcesCover(g, v, w);
  }

  lemma OneRangeTracked(g: string -> string, doc: Json, doc': Json, f: string, v: Json, w: Json)
    requires Tracks(g, doc, doc')
    requires NoCollision(OnAll(g), v) && Renames(OnAll(g), v, w)
    ensures FieldInRange(g(f), w, doc') == FieldInRange(f, v, doc)
  {
    if v.Obj? {
      BoundsTracked(g, doc, doc', v, w);
      SameFinds(doc, Split(f), InRange(v.fields), InRange(w.fields));
    } else {
      NotObjects(g, v, w);
    }
  }

  /** Renaming leaves the bounds of a range as they are, or unknown as they are. */
  lemma BoundsTracked(g: string -> string, doc: Json, doc': Json, v: Json, w: Json)
    requires Tracks(g, doc, doc') && v.Obj?
    requires NoCollision(OnAll(g), v) && Renames(OnAll(g), v, w)
    ensures forall x :: Holds(InRange(v.fields), x) == Holds(InRange(w.fields), x)
  {
    forall op, n: real | op in v.fields
      ensures g(op) in w.fields
      ensures BoundHolds(WordOf(g(op)), w.fields[g(op)], n) == BoundHolds(WordOf(op), v.fields[op], n)
    {
      TheSource(OnAll(g), v, w, op);
      SameShape(OnAll(g), v.fields[op], w.fields[g(op)]);
      SameWord(g, doc, doc', op);
    }
    SourcesCover(g, v, w);
  }

  /** Tests that hold of the same values find the same. */
  lemma {:induction false} SameFinds(doc: Json, path: seq<string>, t: Test, u: Test)
    requires forall x :: Holds(t, x) == Holds(u, x)
    ensures Finds(doc, path, t) == Finds(doc, path, u)
    decreases doc
  {
    if doc.Arr? {
      forall i | 0 <= i < |doc.items| ensures Finds(doc.items[i], path, t) == Finds(doc.items[i], path, u) {
        SameFinds(doc.items[i], path, t, u);
      }
    } else if path != [] && doc.Obj? && path[0] in doc.fields {
      SameFinds(doc.fields[path[0]], path[1..], t, u);
    }
  }

  // ---------------------------------------------------------------- the two documents

  /** The document PercolateEventData sends for an event that PostEvent has wrapped. */
  function PercolationDocument(typeName: string, data: Fields): Json {
    Obj(map["data" := Obj(AddUniqueParams(typeName, data))])
  }

  /** The event as the user's condition speaks of it. */
  function UserDocument(data: Fields): Json {
    Obj(map["data" := Obj(data)])
  }

  lemma LookupTracked(typeName: string, data: Fields, k: string, t: Test)
    requires DotFree(typeName) && !t.Present?
    ensures Finds(PercolationDocument(typeName, data), Split(Insert(typeName, k)), t)
            == Finds(UserDocument(data), Split(k), t)
  {
    var cs, ds := Split(k), Split(Insert(typeName, k));
    if |cs| > 1 && cs[0] == "data" {
      InsertedPath(typeName, k);
      DescendTwice(typeName, data, cs[1..], t);
    } else {
      SameHead(typeName, k);
      LookupFails(Obj(data), cs, t);
      LookupFails(Obj(AddUniqueParams(typeName, data)), ds, t);
    }
  }

  lemma InsertedPath(typeName: string, k: string)
    requires DotFree(typeName) && |Split(k)| > 1 && Split(k)[0] == "data"
    ensures Split(k) == ["data"] + Split(k)[1..]
    ensures Split(Insert(typeName, k)) == ["data", typeName] + Split(k)[1..]
  {
    InsertMeaning(typeName, k);
    SplitDotFree(typeName);
    PathOf(typeName, "data", Split(k));
  }

  lemma PathOf(typeName: string, head: string, cs: seq<string>)
    requires |cs| > 1 && cs[0] == head && EndsWithData(head)
    ensures cs == [head] + cs[1..]
    ensures InsertComponents([typeName], cs) == [head, typeName] + cs[1..]
  {
    assert cs == [head] + cs[1..];
    InsertComponentsAt([typeName], head, cs[1..]);
    assert [head] + ([typeName] + cs[1..]) == [head, typeName] + cs[1..];
  }

  lemma SameHead(typeName: string, k: string)
    ensures Split(Insert(typeName, k))[0] == Split(k)[0]
    ensures |Split(k)| == 1 ==> |Split(Insert(typeName, k))| == 1
  {
    InsertMeaning(typeName, k);
  }

  /** A document that only has "data", and there an object, holds no scalar at
      "data" and nothing at all elsewhere at the top. */
  lemma LookupFails(inner: Json, path: seq<string>, t: Test)
    requires inner.Obj? && !t.Present? && |path| >= 1 && (path[0] == "data" ==> |path| == 1)
    ensures !Finds(Obj(map["data" := inner]), path, t)
  {
    if path[0] == "data" { assert path[1..] == []; }
  }

  lemma DescendTwice(typeName: string, data: Fields, rest: seq<string>, t: Test)
    ensures Finds(PercolationDocument(typeName, data), ["data", typeName] + rest, t) == Finds(Obj(data), rest, t)
    ensures Finds(UserDocument(data), ["data"] + rest, t) == Finds(Obj(data), rest, t)
  {
    var path := ["data", typeName] + rest;
    assert path[1..] == [typeName] + rest && path[1..][1..] == rest;
    assert (["data"] + rest)[1..] == rest;
  }

  lemma InsertTracks(typeName: string, data: Fields)
    requires DotFree(typeName)
    ensures Tracks(k => Insert(typeName, k), UserDocument(data), PercolationDocument(typeName, data))
  {
    forall k | DotFree(k) ensures Insert(typeName, k) == k { DataHasDot(k, Index(k, DATA)); }
    forall k | !DotFree(k) ensures !DotFree(Insert(typeName, k)) {
      var i := Index(k, DATA);
      if i >= 0 { assert Insert(typeName, k)[i + 4] == '.'; }
    }
    forall k, t: Test | !t.Present?
      ensures Finds(PercolationDocument(typeName, data), Split(Insert(typeName, k)), t)
              == Finds(UserDocument(data), Split(k), t)
    {
      LookupTracked(typeName, data, k, t);
    }
  }

  /** For a dot-free type name and every condition without exists clauses, whatever
      its field names, the query that PostTrigger registers matches the document that
      PostEvent percolates exactly when the condition holds of the event's data. */
  lemma RewritingPreservesMeaning(typeName: string, c: Json, q: Json, data: Fields)
    requires DotFree(typeName) && AllKeys(NotExists, c) && Renames(Rewrite(typeName), c, q)
    ensures Matches(q, PercolationDocument(typeName, data)) == Matches(c, UserDocument(data))
  {
    RewriteHasOneOutcome(typeName, c, q, q);
    InsertTracks(typeName, data);
    MatchesTracked(k => Insert(typeName, k), UserDocument(data), PercolationDocument(typeName, data), c, q);
  }

  // ---------------------------------------------------------------- dotted type names

  function TermQuery(field: string): Json {
    Obj(map["term" := Obj(map[field := Bool(true)])])
  }

  lemma TermMeaning(field: string, doc: Json)
    ensures Matches(TermQuery(field), doc) == Finds(doc, Split(field), Equals(Bool(true)))
  {
    var v := Obj(map[field := Bool(true)]);
    assert WordOf("term") == Term;
    assert forall f | f in v.fields :: f == field && v.fields[f] == Bool(true);
    assert field in v.fields;
    assert Clause(Term, v, doc) == FieldEquals(field, Bool(true), doc);
  }

  lemma TermRewritten(typeName: string, field: string)
    ensures Renames(Rewrite(typeName), TermQuery(field), TermQuery(Insert(typeName, field)))
  {
    DataHasDot("term", Index("term", DATA));
    OneRenamed(Rewrite(typeName), field, Bool(true), Bool(true));
    OneRenamed(Rewrite(typeName), "term", Obj(map[field := Bool(true)]),
               Obj(map[Insert(typeName, field) := Bool(true)]));
  }

  lemma TermKeys(field: string)
    requires !DotFree(field)
    ensures AllKeys(NotExists, TermQuery(field))
  {
    var v := Obj(map[field := Bool(true)]);
    assert AllKeys(NotExists, v);
    assert NotExists("term");
  }

  lemma OneRenamed(f: KeyMap, k: string, v: Json, w: Json)
    requires Renames(f, v, w)
    ensures Renames(f, Obj(map[k := v]), Obj(map[f(v.IsLeaf(), k) := w]))
  {
    var c, q := Obj(map[k := v]), f(v.IsLeaf(), k);
    assert NewKey(f, c.fields, k) == q;
    assert HasSource(f, c, q, w);
  }

  /** Below a type name with dots nothing is found: the path has its components, the
      document has it whole. */
  lemma DottedNameNotFound(typeName: string, data: Fields, k: string, t: Test)
    requires !DotFree(typeName) && |Split(k)| > 1 && Split(k)[0] == "data"
    ensures !Finds(PercolationDocument(typeName, data), Split(Insert(typeName, k)), t)
  {
    var ts, cs := Split(typeName), Split(k);
    InsertMeaning(typeName, k);
    assert cs == ["data"] + cs[1..];
    InsertComponentsAt(ts, "data", cs[1..]);
    var path := ["data"] + (ts + cs[1..]);
    assert path[1..] == ts + cs[1..] && path[1..][0] == ts[0] && DotFree(ts[0]);
    assert ts[0] != typeName;
  }

  /** So a dot in the type name always breaks some trigger: there is a condition that
      holds of an event whose percolation it misses. With RewritingPreservesMeaning,
      meaning is preserved exactly for the dot-free type names. */
  lemma DottedNameLosesMeaning(typeName: string) returns (c: Json, q: Json, data: Fields)
    requires !DotFree(typeName)
    ensures AllKeys(NotExists, c) && Renames(Rewrite(typeName), c, q)
    ensures Matches(c, UserDocument(data)) && !Matches(q, PercolationDocument(typeName, data))
  {
    var cs := ["data", "x"];
    SplitJoin(cs);
    var k := Join(cs);
    c, q, data := TermQuery(k), TermQuery(Insert(typeName, k)), map["x" := Bool(true)];
    TermRewritten(typeName, k);
    TermKeys(k);
    TermMeaning(k, UserDocument(data));
    TermMeaning(Insert(typeName, k), PercolationDocument(typeName, data));
    DottedNameNotFound(typeName, data, k, Equals(Bool(true)));
    FoundAtX(data);
  }

  lemma FoundAtX(data: Fields)
    requires data == map["x" := Bool(true)]
    ensures Finds(UserDocument(data), ["data", "x"], Equals(Bool(true)))
  {
    assert ["data", "x"][1..] == ["x"] && ["x"][1..] == [];
  }

  // ---------------------------------------------------------------- exists clauses

  /** An object in which exactly the given path leads to a value. */
  function Nest(path: seq<string>): Json {
    if path == [] then Bool(true) else Obj(map[path[0] := Nest(path[1..])])
  }

  lemma {:induction false} NestFinds(path: seq<string>)
    ensures Finds(Nest(path), path, Present)
  {
    if path != [] { NestFinds(path[1..]); }
  }

  lemma {:induction false} NestTooShort(path: seq<string>, longer: seq<string>)
    requires |path| < |longer|
    ensures !Finds(Nest(path), longer, Present)
  {
    if path != [] && longer[0] == path[0] { NestTooShort(path[1..], longer[1..]); }
  }

  function ExistsQuery(field: string): Json {
    Obj(map["exists" := Obj(map["field" := Str(field)])])
  }

  /** An exists clause names its field in a value, which the rewriting does not touch,
      so for every such field below "data." some event tells the two queries apart. */
  lemma ExistsLosesMeaning(typeName: string, rest: seq<string>) returns (data: Fields)
    requires Components(rest) && DotFree(typeName)
    ensures var field := Join(["data"] + rest);
            Matches(ExistsQuery(field), PercolationDocument(typeName, data))
            != Matches(ExistsQuery(field), UserDocument(data))
  {
    SplitJoin(["data"] + rest);
    data := Distinguish(typeName, rest);
    ExistsMeaning(typeName, ["data"] + rest, rest, data);
  }

  lemma Distinguish(typeName: string, rest: seq<string>) returns (data: Fields)
    requires |rest| >= 1
    ensures (rest[0] == typeName && Finds(Obj(data), rest[1..], Present)) != Finds(Obj(data), rest, Present)
  {
    if rest[0] != typeName {
      data := Nest(rest).fields;
      NestFinds(rest);
    } else if |rest| == 1 {
      data := map[typeName + "'" := Bool(true)];
      assert |typeName + "'"| != |typeName|;
      assert rest[1..] == [] && typeName + "'" in data;
    } else {
      data := Nest(rest[1..]).fields;
      NestFinds(rest[1..]);
      NestTooShort(rest[1..], rest);
    }
  }

  lemma ExistsClause(field: string, doc: Json)
    ensures Matches(ExistsQuery(field), doc) == Finds(doc, Split(field), Present)
  {
    var c := ExistsQuery(field);
    assert WordOf("exists") == Exists;
    var v := Obj(map["field" := Str(field)]);
    assert Clause(Exists, v, doc) == FieldPresent(Str(field), doc);
  }

  lemma ExistsMeaning(typeName: string, cs: seq<string>, rest: seq<string>, data: Fields)
    requires cs == ["data"] + rest && |rest| >= 1 && Split(Join(cs)) == cs
    ensures Matches(ExistsQuery(Join(cs)), UserDocument(data)) == Finds(Obj(data), rest, Present)
    ensures Matches(ExistsQuery(Join(cs)), PercolationDocument(typeName, data))
            == (rest[0] == typeName && Finds(Obj(data), rest[1..], Present))
  {
    assert cs[1..] == rest;
    ExistsClause(Join(cs), UserDocument(data));
    ExistsClause(Join(cs), PercolationDocument(typeName, data));
  }

  /** The rewriting leaves such a query as it is. */
  lemma ExistsNotRewritten(typeName: string, field: string, q: Json)
    requires Renames(Rewrite(typeName), ExistsQuery(field), q)
    ensures q == ExistsQuery(field)
  {
    forall leaf, k | DotFree(k) ensures Rewrite(typeName)(leaf, k) == k { DataHasDot(k, Index(k, DATA)); }
    ExistsKeys(field);
    FixedKeysFixTree(Rewrite(typeName), DotFree, ExistsQuery(field), q);
  }

  lemma ExistsKeys(field: string)
    ensures AllKeys(DotFree, ExistsQuery(field))
  {
    OneKey("field", Str(field));
    OneKey("exists", Obj(map["field" := Str(field)]));
  }

  lemma OneKey(k: string, v: Json)
    requires DotFree(k) && AllKeys(DotFree, v)
    ensures AllKeys(DotFree, Obj(map[k := v]))
  {
  }
}
