/** How trigger conditions rename one key: the four closures of
    workflow/TriggerDB.go and workflow/Service.go, their meaning on dotted names,
    and the exact keys that survive being stored and read back. */
module ConditionKeys {
  import opened DottedNames

  const DATA := "data."

  /** strings.Replace(key, "data.", "data." + typeName + ".", 1). */
  function Insert(typeName: string, key: string): string {
    var p := Index(key, DATA);
    if p < 0 then key
    else key[..p] + (DATA + typeName + ".") + key[p + |DATA|..]
  }

  /** strings.Replace(key, a, b, -1) for one-character a and b. */
  function ReplaceChar(key: string, a: char, b: char): (r: string)
    ensures |r| == |key|
    ensures forall i | 0 <= i < |key| :: r[i] == if key[i] == a then b else key[i]
  {
    seq(|key|, i requires 0 <= i < |key| => if key[i] == a then b else key[i])
  }

  /** The slicing closure of decodeCondition. strings.Index yields -1 when there
      is no dot, so the slices start at 0. */
  function Strip(key: string): string {
    var first := Index(key, ".") + 1;
    var rest := key[first..];
    key[..first] + rest[Index(rest, ".") + 1..]
  }

  /** strings.Replace(key, ".", "~", -1), the closure of encodeCondition. */
  function ToTildes(key: string): string {
    ReplaceChar(key, '.', '~')
  }

  /** strings.Replace(key, "~", ".", -1), the first closure of decodeCondition. */
  function ToDots(key: string): string {
    ReplaceChar(key, '~', '.')
  }

  // ---------------------------------------------------------------- on components

  predicate EndsWithData(c: string) {
    |c| >= 4 && c[|c| - 4..] == "data"
  }

  /** The first component, the last one excepted, that ends in "data"; -1 if none. */
  function DataIndex(cs: seq<string>): (i: int)
    ensures -1 <= i
    ensures i >= 0 ==> i < |cs| - 1 && EndsWithData(cs[i])
    ensures forall j | 0 <= j < |cs| - 1 && (i < 0 || j < i) :: !EndsWithData(cs[j])
  {
    if |cs| <= 1 then -1
    else if EndsWithData(cs[0]) then 0
    else
      var i := DataIndex(cs[1..]);
      assert forall j | 1 <= j < |cs| :: cs[j] == cs[1..][j - 1];
      if i < 0 then -1 else i + 1
  }

  function InsertComponents(ts: seq<string>, cs: seq<string>): seq<string> {
    var i := DataIndex(cs);
    if i < 0 then cs else cs[..i + 1] + ts + cs[i + 1..]
  }

  function StripComponents(cs: seq<string>): seq<string> {
    if |cs| < 3 then cs else [cs[0]] + cs[2..]
  }

  lemma StripOneDot(c: string, rest: string)
    requires DotFree(c) && DotFree(rest)
    ensures Strip(c + "." + rest) == c + "." + rest
  {
    var key := c + "." + rest;
    DotAfterHead(c, rest);
    NoDot(rest);
    assert key[|c| + 1..] == rest;
    assert key[..|c| + 1] == c + ".";
  }

  lemma StripTwoDots(c: string, d: string, rest: string)
    requires DotFree(c) && DotFree(d)
    ensures Strip(c + "." + (d + "." + rest)) == c + "." + rest
  {
    var tail := d + "." + rest;
    var key := c + "." + tail;
    DotAfterHead(c, tail);
    DotAfterHead(d, rest);
    assert key[|c| + 1..] == tail;
    assert key[..|c| + 1] == c + ".";
    assert tail[|d| + 1..] == rest;
  }

  lemma StripSecondOf(c: string, d: string, cs: seq<string>)
    requires |cs| >= 1
    ensures StripComponents([c] + ([d] + cs)) == [c] + cs
  {
    var ds := [c] + ([d] + cs);
    assert ds[2..] == cs;
  }

  lemma StripMeaning(key: string)
    ensures Split(Strip(key)) == StripComponents(Split(key))
  {
    HeadAndRest(key);
    var i := Index(key, ".");
    if i < 0 {
      assert Strip(key) == key;
    } else {
      var c, tail := key[..i], key[i + 1..];
      HeadAndRest(tail);
      var j := Index(tail, ".");
      if j < 0 {
        StripOneDot(c, tail);
      } else {
        var d, rest := tail[..j], tail[j + 1..];
        StripTwoDots(c, d, rest);
        SplitHead(c, rest);
        StripSecondOf(c, d, Split(rest));
      }
    }
  }

  /** "data." occurs in a dot-free head followed by a dot either at the head's end
      or inside the rest. */
  lemma DataOccurs(c: string, rest: string, j: int)
    requires DotFree(c)
    ensures OccursAt(c + "." + rest, DATA, j) <==>
            (EndsWithData(c) && j == |c| - 4) || (j > |c| && OccursAt(rest, DATA, j - |c| - 1))
  {
    var s, n := c + "." + rest, |c|;
    if j > n {
      if j + 5 <= |s| { assert s[j..j + 5] == rest[j - n - 1..j - n + 4]; }
    } else if 0 <= j && j + 5 <= |s| {
      var w := s[j..j + 5];
      if n - 4 < j {
        assert w[n - j] == s[n] == '.';
        assert DATA[n - j] != '.';
      } else {
        assert w[4] == s[j + 4];
        assert w[..4] == c[j..j + 4];
        assert DATA == "data" + ".";
        if j == n - 4 && EndsWithData(c) { assert w == DATA; }
      }
    }
  }

  /** Where "data." first occurs in a dot-free head followed by a dot. */
  lemma DataInHead(c: string, rest: string)
    requires DotFree(c)
    ensures Index(c + "." + rest, DATA) ==
            if EndsWithData(c) then |c| - 4
            else var i := Index(rest, DATA); if i < 0 then -1 else |c| + 1 + i
  {
    var s, i := c + "." + rest, Index(rest, DATA);
    forall j { DataOccurs(c, rest, j); }
    if EndsWithData(c) {
      IndexIs(s, DATA, |c| - 4);
    } else if i >= 0 {
      IndexIs(s, DATA, |c| + 1 + i);
    }
  }

  lemma DataHasDot(s: string, j: int)
    ensures OccursAt(s, DATA, j) ==> !DotFree(s)
  {
    if OccursAt(s, DATA, j) { assert s[j..j + 5][4] == s[j + 4] == '.'; }
  }

  /** Inserting after a head that ends in "data". */
  lemma InsertAtHead(typeName: string, c: string, rest: string)
    requires DotFree(c) && EndsWithData(c)
    ensures Insert(typeName, c + "." + rest) == c + "." + (typeName + "." + rest)
  {
    var s, p := c + "." + rest, |c| - 4;
    DataInHead(c, rest);
    assert s[..p] + DATA == c + ".";
    assert s[p + 5..] == rest;
  }

  /** Inserting behind any other head. */
  lemma InsertBehindHead(typeName: string, c: string, rest: string)
    requires DotFree(c) && !EndsWithData(c)
    ensures Insert(typeName, c + "." + rest) == c + "." + Insert(typeName, rest)
  {
    var s, n, i := c + "." + rest, |c| + 1, Index(rest, DATA);
    DataInHead(c, rest);
    if i >= 0 {
      var u, v, t := rest[..i], rest[i + 5..], DATA + typeName + ".";
      assert s[..n + i] == (c + ".") + u;
      assert s[n + i + 5..] == v;
      assert ((c + ".") + u) + t + v == (c + ".") + (u + t + v);
    }
  }

  /** Inserting into a name is inserting the type name's components after the
      component that ends in "data". */
  lemma {:induction false} InsertMeaning(typeName: string, key: string)
    ensures Split(Insert(typeName, key)) == InsertComponents(Split(typeName), Split(key))
    decreases |key|
  {
    HeadAndRest(key);
    var i := Index(key, ".");
    if i < 0 {
      DataHasDot(key, Index(key, DATA));
    } else {
      var c, rest := key[..i], key[i + 1..];
      if EndsWithData(c) {
        InsertAtHead(typeName, c, rest);
        SplitHead(c, typeName + "." + rest);
        SplitConcat(typeName, rest);
        InsertComponentsAt(Split(typeName), c, Split(rest));
      } else {
        InsertMeaning(typeName, rest);
        InsertBehindHead(typeName, c, rest);
        SplitHead(c, Insert(typeName, rest));
        InsertComponentsBehind(Split(typeName), c, Split(rest));
      }
    }
  }

  lemma InsertComponentsAt(ts: seq<string>, c: string, cs: seq<string>)
    requires EndsWithData(c) && |cs| >= 1
    ensures InsertComponents(ts, [c] + cs) == [c] + (ts + cs)
  {
    assert ([c] + cs)[..1] == [c];
  }

  lemma InsertComponentsBehind(ts: seq<string>, c: string, cs: seq<string>)
    requires !EndsWithData(c) && |cs| >= 1
    ensures InsertComponents(ts, [c] + cs) == [c] + InsertComponents(ts, cs)
  {
    var i, ds := DataIndex(cs), [c] + cs;
    assert ds[1..] == cs;
    assert DataIndex(ds) == if i < 0 then -1 else i + 1;
    if i >= 0 {
      assert ds[..i + 2] == [c] + cs[..i + 1] && ds[i + 2..] == cs[i + 1..];
      assert [c] + cs[..i + 1] + ts + cs[i + 1..] == [c] + (cs[..i + 1] + ts + cs[i + 1..]);
    }
  }

  // ---------------------------------------------------------------- round trip of one key

  /** The keys that post-then-read leaves alone: without "data." a key may have at
      most one dot; with it the type name must be dot-free and "data." must end at
      the key's first dot, or else the component it ends must be the second one and
      already equal the type name. */
  predicate SurvivesRoundTrip(typeName: string, key: string) {
    var cs := Split(key);
    var i := DataIndex(cs);
    if i < 0 then |cs| <= 2
    else DotFree(typeName) && (i == 0 || (i == 1 && cs[1] == typeName))
  }

  /** Inserting the type name and stripping the second component gives the key back
      exactly when SurvivesRoundTrip says so. */
  lemma KeyRoundTrip(typeName: string, key: string)
    ensures Strip(Insert(typeName, key)) == key <==> SurvivesRoundTrip(typeName, key)
  {
    var cs, ts := Split(key), Split(typeName);
    InsertMeaning(typeName, key);
    var ds := InsertComponents(ts, cs);
    StripMeaning(Insert(typeName, key));
    var es := StripComponents(ds);
    if es == cs { SplitInjective(Strip(Insert(typeName, key)), key); }
    ComponentRoundTrip(ts, cs);
    NoDot(typeName);
  }

  /** What one post-and-read does to a name whose component i > 0 ends in "data". */
  lemma ShiftedComponents(ts: seq<string>, cs: seq<string>, i: nat)
    requires i == DataIndex(cs) && i > 0 && |ts| >= 1
    ensures StripComponents(InsertComponents(ts, cs)) == [cs[0]] + cs[2..i + 1] + ts + cs[i + 1..]
  {
    assert cs[..i + 1][2..] == cs[2..i + 1];
    DropTwo(cs[..i + 1], ts, cs[i + 1..]);
  }

  lemma DropTwo(a: seq<string>, b: seq<string>, c: seq<string>)
    requires |a| >= 2 && |b| >= 1
    ensures StripComponents(a + b + c) == [a[0]] + a[2..] + b + c
  {
    assert (a + b + c)[2..] == a[2..] + b + c;
    assert [a[0]] + (a[2..] + b + c) == [a[0]] + a[2..] + b + c;
  }

  lemma ComponentRoundTrip(ts: seq<string>, cs: seq<string>)
    requires Components(ts) && Components(cs)
    ensures StripComponents(InsertComponents(ts, cs)) == cs <==>
            var i := DataIndex(cs);
            if i < 0 then |cs| <= 2
            else |ts| == 1 && (i == 0 || (i == 1 && cs[1] == ts[0]))
  {
    var i := DataIndex(cs);
    if i >= 0 {
      if |ts| != 1 {
        InsertedLength(ts, cs);
      } else if i == 0 {
        InsertedFirst(ts[0], cs);
      } else {
        ShiftedComponents(ts, cs, i);
        InsertedLater(ts[0], cs, i);
      }
    }
  }

  lemma InsertedLength(ts: seq<string>, cs: seq<string>)
    requires |ts| >= 1 && DataIndex(cs) >= 0
    ensures |StripComponents(InsertComponents(ts, cs))| == |cs| + |ts| - 1
  {
    assert |InsertComponents(ts, cs)| == |cs| + |ts|;
  }

  lemma InsertedFirst(t: string, cs: seq<string>)
    requires DataIndex(cs) == 0
    ensures StripComponents(InsertComponents([t], cs)) == cs
  {
    var ds := cs[..1] + [t] + cs[1..];
    assert ds[0] == cs[0] && ds[2..] == cs[1..];
  }

  lemma InsertedLater(t: string, cs: seq<string>, i: nat)
    requires i == DataIndex(cs) && i > 0
    ensures [cs[0]] + cs[2..i + 1] + [t] + cs[i + 1..] == cs <==> i == 1 && cs[1] == t
  {
    var es := [cs[0]] + cs[2..i + 1] + [t] + cs[i + 1..];
    assert es[i] == t;
    if i == 1 {
      if cs[1] == t {
        forall j | 0 <= j < |cs| ensures es[j] == cs[j] { }
      }
    } else if es == cs {
      forall j | 1 <= j < i ensures es[j] == cs[j + 1] {
        assert es[j] == cs[2..i + 1][j - 1];
      }
      ChainOfEquals(cs, 1, i, es);
      assert false;
    }
  }

  /** If dropping an element shifts cs onto itself between lo and hi, the ends agree. */
  lemma {:induction false} ChainOfEquals(cs: seq<string>, lo: nat, hi: nat, es: seq<string>)
    requires lo <= hi < |cs| == |es|
    requires forall j | lo <= j < hi :: es[j] == cs[j + 1]
    requires es == cs
    ensures cs[lo] == cs[hi]
    decreases hi - lo
  {
    if lo < hi {
      assert es[lo] == cs[lo];
      ChainOfEquals(cs, lo + 1, hi, es);
    }
  }

  // ---------------------------------------------------------------- no cycles

  /** Every key of the set is the image of a key of the set. */
  ghost predicate Onto(f: string -> string, keys: set<string>) {
    forall k {:trigger HasPreimage(f, keys, k)} :: k in keys ==> HasPreimage(f, keys, k)
  }

  ghost predicate HasPreimage(f: string -> string, keys: set<string>, k: string) {
    exists l :: l in keys && f(l) == k
  }

  ghost function Preimage(f: string -> string, keys: set<string>, k: string): (l: string)
    requires Onto(f, keys) && k in keys
    ensures l in keys && f(l) == k
  {
    assert HasPreimage(f, keys, k);
    var l :| l in keys && f(l) == k;
    l
  }

  ghost predicate FixesAll(f: string -> string, keys: set<string>) {
    forall k | k in keys :: f(k) == k
  }

  /** A map f that reaches every key of a finite set from inside the set, and moves
      no key in a cycle, moves no key at all. */
  lemma NoProperCycle(keys: set<string>, f: string -> string, mu: string -> int)
    requires Onto(f, keys)
    requires forall l | l in keys && f(f(l)) != f(l) :: mu(f(l)) < mu(l)
    ensures FixesAll(f, keys)
  {
    var moved := set k | k in keys && f(k) != k;
    if moved != {} {
      var top := Highest(moved, mu);
      var l := HigherMoved(keys, f, mu, top);
    }
    assert FixesAll(f, keys) by { forall k | k in keys ensures f(k) == k { assert f(k) != k ==> k in moved; } }
  }

  lemma HigherMoved(keys: set<string>, f: string -> string, mu: string -> int, k: string) returns (l: string)
    requires Onto(f, keys) && k in keys && f(k) != k
    requires forall l | l in keys && f(f(l)) != f(l) :: mu(f(l)) < mu(l)
    ensures l in keys && f(l) != l && mu(k) < mu(l)
  {
    l := Preimage(f, keys, k);
  }

  /** The same for two classes of keys, the second closed under f. */
  lemma NoProperCycleInTwo(keys: set<string>, first: string -> bool, f: string -> string, mu: string -> int,
                           nu: string -> int)
    requires Onto(f, keys)
    requires forall l | l in keys && !first(l) :: !first(f(l))
    requires forall l | l in keys && first(l) && f(f(l)) != f(l) :: mu(f(l)) < mu(l)
    requires forall l | l in keys && !first(l) && f(f(l)) != f(l) :: nu(f(l)) < nu(l)
    ensures FixesAll(f, keys)
  {
    var a, b := set k | k in keys && first(k), set k | k in keys && !first(k);
    forall k | k in a ensures HasPreimage(f, a, k) {
      var l := Preimage(f, keys, k);
      assert l in a;
    }
    NoProperCycle(a, f, mu);
    forall k | k in b ensures HasPreimage(f, b, k) {
      var l := Preimage(f, keys, k);
      assert l in a ==> f(l) == l;
      assert l in b;
    }
    NoProperCycle(b, f, nu);
    forall k | k in keys ensures f(k) == k { assert k in a || k in b; }
  }

  lemma Highest(keys: set<string>, mu: string -> int) returns (top: string)
    requires keys != {}
    ensures top in keys && forall k | k in keys :: mu(k) <= mu(top)
  {
    top :| top in keys;
    var rest := keys - {top};
    if rest != {} {
      var t := Highest(rest, mu);
      if mu(top) < mu(t) { top := t; }
    }
  }

  /** Sum of the positions, counted from off, of the components that end in "data". */
  function Weight(cs: seq<string>, off: nat): nat {
    if cs == [] then 0
    else (if EndsWithData(cs[0]) then off else 0) + Weight(cs[1..], off + 1)
  }

  lemma {:induction false} WeightAppend(a: seq<string>, b: seq<string>, off: nat)
    ensures Weight(a + b, off) == Weight(a, off) + Weight(b, off + |a|)
  {
    if a == [] {
      assert a + b == b;
    } else {
      assert (a + b)[1..] == a[1..] + b;
      WeightAppend(a[1..], b, off + 1);
    }
  }

  lemma {:induction false} NoWeight(cs: seq<string>, off: nat)
    requires forall i | 0 <= i < |cs| :: !EndsWithData(cs[i])
    ensures Weight(cs, off) == 0
  {
    if cs != [] { NoWeight(cs[1..], off + 1); }
  }

  function NameWeight(cs: seq<string>): nat
    requires |cs| >= 1
  {
    Weight(cs[..|cs| - 1], 0)
  }

  /** How one post-and-read shifts the weight of a name. */
  lemma WeightShift(t: string, cs: seq<string>, i: nat)
    requires i == DataIndex(cs) && i > 0
    ensures var es := StripComponents(InsertComponents([t], cs));
            |es| == |cs| && NameWeight(es) == NameWeight(cs) - 1 + (if EndsWithData(t) then i else 0)
  {
    ShiftedComponents([t], cs, i);
    var n := |cs| - 1;
    var head, mid, tail := [cs[0]], cs[2..i + 1], cs[i + 1..n];
    var es := head + mid + [t] + cs[i + 1..];
    assert es[..n] == head + mid + [t] + tail;
    assert cs[..n] == head + cs[1..i] + [cs[i]] + tail;
    WeightOfFour(head, mid, [t], tail);
    WeightOfFour(head, cs[1..i], [cs[i]], tail);
    NoWeight(cs[1..i], 1);
    WeightOfMiddle(cs, i);
  }

  lemma WeightOfMiddle(cs: seq<string>, i: nat)
    requires i == DataIndex(cs) && i > 0
    ensures Weight(cs[2..i + 1], 1) == i - 1
  {
    if i >= 2 {
      assert cs[2..i + 1] == cs[2..i] + [cs[i]];
      WeightAppend(cs[2..i], [cs[i]], 1);
      NoWeight(cs[2..i], 1);
    }
  }

  lemma WeightOfFour(a: seq<string>, b: seq<string>, c: seq<string>, d: seq<string>)
    ensures Weight(a + b + c + d, 0) ==
            Weight(a, 0) + Weight(b, |a|) + Weight(c, |a| + |b|) + Weight(d, |a| + |b| + |c|)
  {
    WeightAppend(a + b + c, d, 0);
    WeightAppend(a + b, c, 0);
    WeightAppend(a, b, 0);
  }

  function PostThenRead(typeName: string, k: string): string {
    Strip(Insert(typeName, k))
  }

  lemma PostThenReadMeaning(typeName: string, k: string)
    ensures Split(PostThenRead(typeName, k)) == StripComponents(InsertComponents(Split(typeName), Split(k)))
  {
    InsertMeaning(typeName, k);
    StripMeaning(Insert(typeName, k));
  }

  lemma WithoutDataStays(cs: seq<string>)
    requires DataIndex(cs) < 0
    ensures DataIndex(StripComponents(cs)) < 0
  {
    var es := StripComponents(cs);
    forall j | 0 <= j < |es| - 1 ensures !EndsWithData(es[j]) {
      if |cs| >= 3 && j > 0 { assert es[j] == cs[j + 1]; }
    }
  }

  predicate HoldsData(k: string) {
    DataIndex(Split(k)) >= 0
  }

  /** A measure that falls whenever post-and-read moves a key holding "data." to a
      key that it moves again. */
  function Falling(ts: seq<string>, cs: seq<string>): int
    requires |ts| >= 1 && |cs| >= 1
  {
    if |ts| > 1 then -|cs|
    else if EndsWithData(ts[0]) then 0 - NameWeight(cs) as int
    else NameWeight(cs)
  }

  /** What the components of a type name and a key tell about the key's round trip. */
  lemma FixedComponents(typeName: string, k: string)
    ensures PostThenRead(typeName, k) == k <==>
            var ts, cs := Split(typeName), Split(k);
            StripComponents(InsertComponents(ts, cs)) == cs
  {
    PostThenReadMeaning(typeName, k);
    if Split(PostThenRead(typeName, k)) == Split(k) { SplitInjective(PostThenRead(typeName, k), k); }
  }

  lemma ComponentsFall(ts: seq<string>, cs: seq<string>)
    requires Components(ts) && Components(cs) && DataIndex(cs) >= 0
    requires var es := StripComponents(InsertComponents(ts, cs));
             Components(es) && StripComponents(InsertComponents(ts, es)) != es
    ensures Falling(ts, StripComponents(InsertComponents(ts, cs))) < Falling(ts, cs)
  {
    var i := DataIndex(cs);
    if |ts| > 1 {
      InsertedLength(ts, cs);
    } else {
      assert ts == [ts[0]];
      if i == 0 { InsertedFirst(ts[0], cs); }
      if i == 1 && EndsWithData(ts[0]) { SettlesAtOnce(ts[0], cs); }
      if i > 0 { WeightShift(ts[0], cs, i); }
    }
  }

  /** With a dot-free type name that itself ends in "data", a key whose second
      component ends in "data" is moved at most once. */
  lemma SettlesAtOnce(t: string, cs: seq<string>)
    requires EndsWithData(t) && DataIndex(cs) == 1
    ensures var es := StripComponents(InsertComponents([t], cs));
            StripComponents(InsertComponents([t], es)) == es
  {
    ShiftedComponents([t], cs, 1);
    var es := [cs[0]] + cs[2..2] + [t] + cs[2..];
    assert es[1] == t && es[0] == cs[0];
    SecondIsData(es);
    ShiftedComponents([t], es, 1);
    InsertedLater(t, es, 1);
  }

  lemma SecondIsData(es: seq<string>)
    requires |es| >= 3 && !EndsWithData(es[0]) && EndsWithData(es[1])
    ensures DataIndex(es) == 1
  {
    assert es[1..][0] == es[1];
  }

  lemma FallsWithData(typeName: string, k: string)
    requires HoldsData(k)
    requires var l := PostThenRead(typeName, k); PostThenRead(typeName, l) != l
    ensures Falling(Split(typeName), Split(PostThenRead(typeName, k))) < Falling(Split(typeName), Split(k))
  {
    PostThenReadMeaning(typeName, k);
    FixedComponents(typeName, PostThenRead(typeName, k));
    ComponentsFall(Split(typeName), Split(k));
  }

  lemma FallsWithoutData(typeName: string, k: string)
    requires !HoldsData(k)
    ensures !HoldsData(PostThenRead(typeName, k))
    ensures var l := PostThenRead(typeName, k);
            PostThenRead(typeName, l) != l ==> |Split(l)| < |Split(k)|
  {
    PostThenReadMeaning(typeName, k);
    FixedComponents(typeName, PostThenRead(typeName, k));
    WithoutDataStays(Split(k));
  }

  function PostReader(typeName: string): string -> string {
    k => PostThenRead(typeName, k)
  }

  /** If post-and-read maps a finite key set onto itself, it moves none of the keys. */
  lemma OntoMeansFixed(typeName: string, keys: set<string>)
    requires Onto(PostReader(typeName), keys)
    ensures FixesAll(PostReader(typeName), keys)
  {
    var f := PostReader(typeName);
    var mu := (k: string) => Falling(Split(typeName), Split(k));
    var nu := (k: string) => |Split(k)| as int;
    forall l ensures !HoldsData(l) ==> !HoldsData(f(l)) {
      if !HoldsData(l) { FallsWithoutData(typeName, l); }
    }
    forall l | f(f(l)) != f(l) ensures if HoldsData(l) then mu(f(l)) < mu(l) else nu(f(l)) < nu(l) {
      if HoldsData(l) { FallsWithData(typeName, l); } else { FallsWithoutData(typeName, l); }
    }
    NoProperCycleInTwo(keys, HoldsData, f, mu, nu);
  }

  // ---------------------------------------------------------------- injectivity

  /** Inserting any type name never makes two keys collide. */
  lemma InsertInjective(typeName: string, k: string, l: string)
    requires Insert(typeName, k) == Insert(typeName, l)
    ensures k == l
  {
    FirstDataKept(typeName, k);
    FirstDataKept(typeName, l);
    var p := Index(k, DATA);
    if p >= 0 {
      InsertUndone(typeName, k);
      InsertUndone(typeName, l);
    }
  }

  lemma InsertUndone(typeName: string, k: string)
    requires Index(k, DATA) >= 0
    ensures var p, s := Index(k, DATA), Insert(typeName, k);
            p + 5 + |typeName| + 1 <= |s| && k == s[..p + 5] + s[p + 5 + |typeName| + 1..]
  {
    var p, s := Index(k, DATA), Insert(typeName, k);
    assert k == k[..p] + DATA + k[p + 5..];
    assert s[..p + 5] == k[..p] + DATA;
    assert s[p + 5 + |typeName| + 1..] == k[p + 5..];
  }

  lemma SamePrefix(s: string, k: string, n: nat, j: nat)
    requires j + 5 <= n <= |s| && n <= |k| && s[..n] == k[..n]
    ensures OccursAt(s, DATA, j) <==> OccursAt(k, DATA, j)
  {
    assert s[j..j + 5] == s[..n][j..j + 5] && k[j..j + 5] == k[..n][j..j + 5];
  }

  lemma FirstDataKept(typeName: string, k: string)
    ensures Index(Insert(typeName, k), DATA) == Index(k, DATA)
  {
    var p := Index(k, DATA);
    if p >= 0 {
      var s := Insert(typeName, k);
      assert k[..p + 5] == k[..p] + DATA;
      assert s[..p + 5] == k[..p + 5];
      forall j | OccursAt(s, DATA, j) ensures p <= j {
        if j < p { SamePrefix(s, k, p + 5, j); }
      }
      assert OccursAt(s, DATA, p) by { assert s[p..p + 5] == s[..p + 5][p..] == DATA; }
      IndexIs(s, DATA, p);
    }
  }

  predicate TildeFree(s: string) {
    '~' !in s
  }

  lemma TildesUndone(key: string)
    requires TildeFree(key)
    ensures ToDots(ToTildes(key)) == key
  {
  }

  /** An encoded tilde-free key meets another key, encoded or not, only if they are equal. */
  lemma TildesInjective(k: string, l: string)
    requires TildeFree(k) && TildeFree(l)
    ensures ToTildes(k) == ToTildes(l) ==> k == l
    ensures ToTildes(k) == l ==> k == l
  {
    TildesUndone(k);
    TildesUndone(l);
    if ToTildes(k) == l {
      assert forall i | 0 <= i < |k| :: l[i] in l;
    }
  }

  /** Encoding changes nothing that decoding does not change. */
  lemma DotsAbsorbTildes(key: string)
    ensures ToDots(ToTildes(key)) == ToDots(key)
  {
  }

  lemma DotsAreTildeFree(key: string)
    ensures TildeFree(ToDots(key))
    ensures ToDots(key) == key <==> TildeFree(key)
  {
    if TildeFree(key) { assert forall i | 0 <= i < |key| :: key[i] in key; }
  }

  /** Inserting a type name into a tilde-free key and undoing tildes is inserting the
      type name with its tildes undone. */
  lemma InsertThenDots(typeName: string, key: string)
    requires TildeFree(key)
    ensures ToDots(Insert(typeName, key)) == Insert(ToDots(typeName), key)
  {
    var p := Index(key, DATA);
    assert forall i | 0 <= i < |key| :: key[i] in key;
    if p < 0 {
      DotsAreTildeFree(key);
    } else {
      assert ToDots(key[..p] + (DATA + typeName + ".") + key[p + |DATA|..])
             == key[..p] + (DATA + ToDots(typeName) + ".") + key[p + |DATA|..];
    }
  }

  lemma StripTildeFree(key: string)
    requires TildeFree(key)
    ensures TildeFree(Strip(key))
  {
  }

  // ---------------------------------------------------------------- stripping repeatedly

  function StripTimes(n: nat, key: string): string {
    if n == 0 then key else StripTimes(n - 1, Strip(key))
  }

  /** n strips drop the second component min(n, m - 1) times from a name whose first
      component is followed by m >= 1 more. */
  lemma StripTimesMeaning(n: nat, key: string)
    ensures var cs := Split(key);
            Split(StripTimes(n, key)) ==
              if |cs| <= 2 then cs
              else [cs[0]] + cs[1 + (if n <= |cs| - 2 then n else |cs| - 2)..]
  {
    ComponentsStripped(n, key);
  }

  /** The components that n strips leave. */
  function ComponentsLeft(n: nat, cs: seq<string>): seq<string> {
    if |cs| <= 2 then cs else [cs[0]] + cs[1 + (if n <= |cs| - 2 then n else |cs| - 2)..]
  }

  lemma DropAgain(cs: seq<string>, n: nat)
    requires n >= 1
    ensures ComponentsLeft(n - 1, StripComponents(cs)) == ComponentsLeft(n, cs)
  {
    if |cs| > 2 {
      var ds := StripComponents(cs);
      var i := if n - 1 <= |ds| - 2 then n - 1 else |ds| - 2;
      assert ds[0] == cs[0] && ds[1 + i..] == cs[2 + i..];
      assert ds == [ds[0]] + ds[1..];
    }
  }

  lemma {:induction false} ComponentsStripped(n: nat, key: string)
    ensures Split(StripTimes(n, key)) == ComponentsLeft(n, Split(key))
  {
    if n == 0 {
      NoneDropped(Split(key));
    } else {
      StripMeaning(key);
      ComponentsStripped(n - 1, Strip(key));
      DropAgain(Split(key), n);
    }
  }

  lemma NoneDropped(cs: seq<string>)
    ensures ComponentsLeft(0, cs) == cs
  {
    if |cs| > 2 { assert [cs[0]] + cs[1..] == cs; }
  }

  lemma StripKeepsShort(key: string)
    ensures Strip(key) == key <==> |Split(key)| <= 2
  {
    StripMeaning(key);
    if |Split(key)| <= 2 { SplitInjective(Strip(key), key); }
  }

  lemma StripFalls(key: string)
    ensures Strip(Strip(key)) != Strip(key) ==> |Split(Strip(key))| < |Split(key)|
  {
    StripMeaning(key);
    StripKeepsShort(Strip(key));
  }

  /** Stripping maps a finite key set onto itself only by moving nothing. */
  lemma StripOntoMeansFixed(keys: set<string>)
    requires Onto(Strip, keys)
    ensures FixesAll(Strip, keys)
  {
    var length := (k: string) => |Split(k)| as int;
    forall l | Strip(Strip(l)) != Strip(l) ensures length(Strip(l)) < length(l) {
      StripFalls(l);
    }
    NoProperCycle(keys, Strip, length);
  }
}
