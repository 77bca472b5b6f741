/** Names as sequences of components separated by dots, and the string search
    the Go code uses on them. */
module DottedNames {

  predicate OccursAt(s: string, sub: string, i: int) {
    0 <= i <= |s| - |sub| && s[i..i + |sub|] == sub
  }

  /** strings.Index: the first position where sub occurs, or -1. */
  function Index(s: string, sub: string): (i: int)
    ensures i == -1 || OccursAt(s, sub, i)
    ensures forall j | OccursAt(s, sub, j) :: 0 <= i <= j
  {
    IndexFrom(s, sub, 0)
  }

  function IndexFrom(s: string, sub: string, from: nat): (i: int)
    ensures i == -1 || (from <= i && OccursAt(s, sub, i))
    ensures forall j | from <= j && OccursAt(s, sub, j) :: 0 <= i <= j
    decreases |s| - from
  {
    if |s| - |sub| < from then -1
    else if OccursAt(s, sub, from) then from
    else if from == |s| then -1
    else IndexFrom(s, sub, from + 1)
  }

  /** The position found is determined by its two properties. */
  lemma IndexIs(s: string, sub: string, i: nat)
    requires OccursAt(s, sub, i)
    requires forall j | OccursAt(s, sub, j) :: i <= j
    ensures Index(s, sub) == i
  {
  }

  predicate DotFree(s: string) {
    '.' !in s
  }

  ghost predicate Components(cs: seq<string>) {
    |cs| >= 1 && forall i | 0 <= i < |cs| :: DotFree(cs[i])
  }

  lemma DotAt(s: string, i: int)
    ensures OccursAt(s, ".", i) <==> 0 <= i < |s| && s[i] == '.'
  {
    if 0 <= i < |s| { assert s[i..i + 1] == [s[i]]; }
  }

  lemma NoDot(s: string)
    ensures DotFree(s) <==> Index(s, ".") == -1
  {
    if i :| 0 <= i < |s| && s[i] == '.' { DotAt(s, i); }
    DotAt(s, Index(s, "."));
  }

  /** A name is dot-free or a dot-free head, a dot and the rest. */
  lemma HeadAndRest(s: string)
    ensures var i := Index(s, ".");
            if i < 0 then DotFree(s) && Split(s) == [s]
            else
              var c, rest := s[..i], s[i + 1..];
              DotFree(c) && s == c + "." + rest && Split(s) == [c] + Split(rest)
  {
    var i := Index(s, ".");
    NoDot(s);
    if i >= 0 {
      DotAt(s, i);
      SplitAtDot(s);
      assert s == s[..i] + [s[i]] + s[i + 1..];
    }
  }

  lemma SplitAtDot(s: string)
    requires Index(s, ".") >= 0
    ensures var i := Index(s, "."); Split(s) == [s[..i]] + Split(s[i + 1..]) && DotFree(s[..i])
  {
    assert DotFree(Split(s)[0]);
  }

  function Split(s: string): (cs: seq<string>)
    ensures Components(cs)
  {
    var i := Index(s, ".");
    NoDot(s);
    if i < 0 then [s]
    else
      assert DotFree(s[..i]) by {
        forall j | 0 <= j < i ensures s[j] != '.' { DotAt(s, j); }
      }
      [s[..i]] + Split(s[i + 1..])
  }

  function Join(cs: seq<string>): string
    requires |cs| >= 1
  {
    if |cs| == 1 then cs[0] else cs[0] + "." + Join(cs[1..])
  }

  lemma {:induction false} JoinSplit(s: string)
    ensures Join(Split(s)) == s
  {
    var i := Index(s, ".");
    if i >= 0 {
      DotAt(s, i);
      JoinSplit(s[i + 1..]);
      assert s == s[..i] + "." + s[i + 1..];
    }
  }

  /** The first dot of a dot-free head followed by a dot. */
  lemma DotAfterHead(c: string, rest: string)
    requires DotFree(c)
    ensures Index(c + "." + rest, ".") == |c|
  {
    var s := c + "." + rest;
    DotAt(s, |c|);
    forall j | OccursAt(s, ".", j) ensures |c| <= j { DotAt(s, j); }
  }

  /** A dot-free head followed by a dot splits off as one component. */
  lemma SplitHead(c: string, rest: string)
    requires DotFree(c)
    ensures Split(c + "." + rest) == [c] + Split(rest)
  {
    var s := c + "." + rest;
    DotAfterHead(c, rest);
    assert s[..|c|] == c && s[|c| + 1..] == rest;
  }

  lemma SplitDotFree(c: string)
    requires DotFree(c)
    ensures Split(c) == [c]
  {
    NoDot(c);
  }

  lemma {:induction false} SplitJoin(cs: seq<string>)
    requires Components(cs)
    ensures Split(Join(cs)) == cs
  {
    if |cs| == 1 {
      SplitDotFree(cs[0]);
    } else {
      SplitJoin(cs[1..]);
      SplitHead(cs[0], Join(cs[1..]));
    }
  }

  /** Two names with the same components are the same name. */
  lemma SplitInjective(s: string, t: string)
    requires Split(s) == Split(t)
    ensures s == t
  {
    JoinSplit(s);
    JoinSplit(t);
  }

  lemma DotsAssociate(a: string, b: string, c: string)
    ensures (a + "." + b) + "." + c == a + "." + (b + "." + c)
  {
  }

  lemma {:induction false} SplitConcat(s: string, t: string)
    ensures Split(s + "." + t) == Split(s) + Split(t)
  {
    SplitJoined(Split(s), t);
    JoinSplit(s);
  }

  lemma {:induction false} SplitJoined(cs: seq<string>, t: string)
    requires Components(cs)
    ensures Split(Join(cs) + "." + t) == cs + Split(t)
  {
    if |cs| == 1 {
      SplitHead(cs[0], t);
    } else {
      var rest := Join(cs[1..]);
      SplitJoined(cs[1..], t);
      DotsAssociate(cs[0], rest, t);
      SplitHead(cs[0], rest + "." + t);
      assert [cs[0]] + (cs[1..] + Split(t)) == cs + Split(t);
    }
  }
}
