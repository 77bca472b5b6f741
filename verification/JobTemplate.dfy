/** The substitution of event values into a trigger's job string, one replace-all per
    key of the event's data in whatever order Go ranges over it
    (workflow/Service.go:817-819). */
module JobTemplate {

  /** strings.Replace(s, pattern, value, -1): matches are taken from the left, and what
      is put in is not searched again. */
  function ReplaceAll(s: string, pattern: string, value: string): string
    requires pattern != ""
    decreases |s|
  {
    if s == "" then ""
    else if pattern <= s then value + ReplaceAll(s[|pattern|..], pattern, value)
    else [s[0]] + ReplaceAll(s[1..], pattern, value)
  }

  type Values = map<string, string>

  /** The keys replaced in the given order. */
  function Sequential(s: string, env: Values, order: seq<string>): string
    requires forall k | k in order :: k in env
    decreases |order|
  {
    if order == [] then s
    else Sequential(ReplaceAll(s, "$" + order[0], env[order[0]]), env, order[1..])
  }

  predicate Distinct(xs: seq<string>) {
    forall i, j | 0 <= i < j < |xs| :: xs[i] != xs[j]
  }

  predicate IsOrdering(order: seq<string>, keys: set<string>) {
    && (forall k <- order :: k in keys)
    && (forall k <- keys :: k in order)
    && Distinct(order)
  }

  /** The loop over the event's data, values already formatted. */
  method SubstituteJob(job: string, env: Values) returns (out: string)
    ensures exists order :: IsOrdering(order, env.Keys) && out == Sequential(job, env, order)
  {
    out := job;
    var todo := env.Keys;
    ghost var order: seq<string> := [];
    while todo != {}
      invariant todo <= env.Keys && IsOrdering(order, env.Keys - todo)
      invariant out == Sequential(job, env, order)
      decreases |todo|
    {
      var k :| k in todo;
      out := ReplaceAll(out, "$" + k, env[k]);
      SequentialSnoc(job, env, order, k);
      order := order + [k];
      todo := todo - {k};
    }
  }

  lemma SomeOrdering(keys: set<string>) returns (order: seq<string>)
    ensures IsOrdering(order, keys)
    decreases |keys|
  {
    if keys == {} {
      return [];
    }
    var k :| k in keys;
    order := SomeOrdering(keys - {k});
    order := order + [k];
  }

  lemma {:induction false} SequentialSnoc(s: string, env: Values, order: seq<string>, k: string)
    requires k in env && forall l | l in order :: l in env
    ensures Sequential(s, env, order + [k]) == ReplaceAll(Sequential(s, env, order), "$" + k, env[k])
    decreases |order|
  {
    if order != [] {
      assert (order + [k])[1..] == order[1..] + [k];
      SequentialSnoc(ReplaceAll(s, "$" + order[0], env[order[0]]), env, order[1..], k);
    }
  }

  // ---------------------------------------------------------------- simultaneous substitution

  /** Every "$key" of the template replaced at once. */
  ghost function Simultaneous(s: string, env: Values): string
    decreases |s|
  {
    if s == "" then ""
    else if s[0] == '$' && HasKeyAt(s[1..], env.Keys) then
      var k :| k in env && k <= s[1..];
      env[k] + Simultaneous(s[1 + |k|..], env)
    else [s[0]] + Simultaneous(s[1..], env)
  }

  predicate HasKeyAt(u: string, keys: set<string>) {
    exists k | k in keys :: k <= u
  }

  predicate DollarFree(s: string) {
    '$' !in s
  }

  ghost predicate PlainValues(env: Values) {
    && (forall k | k in env :: DollarFree(k) && DollarFree(env[k]))
    && (forall k, l | k in env && l in env && k <= l :: k == l)
  }

  /** The text up to the next dollar sign. */
  function Run(s: string): (t: string)
    ensures t <= s && DollarFree(t)
  {
    if s == "" || s[0] == '$' then "" else [s[0]] + Run(s[1..])
  }

  /** After each dollar sign there is a key, or a text that no key continues. */
  ghost predicate Settled(s: string, keys: set<string>)
    decreases |s|
  {
    s == "" || ((s[0] == '$' ==> SettledAt(Run(s[1..]), keys)) && Settled(s[1..], keys))
  }

  predicate SettledAt(t: string, keys: set<string>) {
    HasKeyAt(t, keys) || forall k | k in keys :: !(t <= k)
  }

  // ---------------------------------------------------------------- text without dollar signs

  lemma {:induction false} ReplacePast(t: string, rest: string, pattern: string, value: string)
    requires DollarFree(t) && pattern != "" && pattern[0] == '$'
    ensures ReplaceAll(t + rest, pattern, value) == t + ReplaceAll(rest, pattern, value)
    decreases |t|
  {
    if t == "" {
      assert t + rest == rest;
    } else {
      assert (t + rest)[1..] == t[1..] + rest;
      ReplacePast(t[1..], rest, pattern, value);
    }
  }

  lemma {:induction false} SimultaneousPast(t: string, rest: string, env: Values)
    requires DollarFree(t)
    ensures Simultaneous(t + rest, env) == t + Simultaneous(rest, env)
    decreases |t|
  {
    if t == "" {
      assert t + rest == rest;
    } else {
      assert (t + rest)[1..] == t[1..] + rest;
      SimultaneousPast(t[1..], rest, env);
    }
  }

  lemma {:induction false} SettledPast(t: string, rest: string, keys: set<string>)
    requires DollarFree(t)
    ensures Settled(t + rest, keys) == Settled(rest, keys)
    decreases |t|
  {
    if t == "" {
      assert t + rest == rest;
    } else {
      assert (t + rest)[1..] == t[1..] + rest;
      SettledPast(t[1..], rest, keys);
    }
  }

  lemma {:induction false} RunPast(t: string, rest: string)
    requires DollarFree(t)
    ensures t <= Run(t + rest)
    decreases |t|
  {
    if t != "" {
      assert (t + rest)[1..] == t[1..] + rest;
      RunPast(t[1..], rest);
    }
  }

  /** Two prefixes of one text: the shorter is a prefix of the longer. */
  lemma Comparable(k: string, l: string, u: string)
    ensures k <= u && l <= u ==> k <= l || l <= k
  {
    if k <= u && l <= u {
      if |k| <= |l| { assert l[..|k|] == u[..|k|]; } else { assert k[..|l|] == u[..|l|]; }
    }
  }

  // ---------------------------------------------------------------- one key at a time

  /** At a dollar sign followed by a key, that key's value is put in. */
  lemma SimultaneousAtKey(s: string, env: Values, k: string)
    requires PlainValues(env) && k in env && s != "" && s[0] == '$' && k <= s[1..]
    ensures Simultaneous(s, env) == env[k] + Simultaneous(s[1 + |k|..], env)
  {
    forall l | l in env && l <= s[1..] ensures l == k { Comparable(k, l, s[1..]); }
    OnlyKeyAt(s, env, k);
  }

  lemma OnlyKeyAt(s: string, env: Values, k: string)
    requires k in env && s != "" && s[0] == '$' && k <= s[1..] && forall l | l in env && l <= s[1..] :: l == k
    ensures Simultaneous(s, env) == env[k] + Simultaneous(s[1 + |k|..], env)
  {
    assert HasKeyAt(s[1..], env.Keys);
  }

  lemma PrefixAfterDollar(k: string, s: string)
    requires s != "" && s[0] == '$'
    ensures "$" + k <= s <==> k <= s[1..]
  {
    assert ("$" + k)[1..] == k;
    assert s == "$" + s[1..];
  }

  ghost predicate Agrees(s: string, env: Values, k: string)
    requires k in env
  {
    var r, rest := ReplaceAll(s, "$" + k, env[k]), env - {k};
    Settled(r, rest.Keys) && Simultaneous(r, rest) == Simultaneous(s, env)
  }

  /** Replacing one key first leaves the simultaneous substitution of the others. */
  lemma {:induction false} ReplaceOneKey(s: string, env: Values, k: string)
    requires PlainValues(env) && k in env && Settled(s, env.Keys)
    ensures Agrees(s, env, k)
    decreases |s|
  {
    var pattern := "$" + k;
    if s == "" {
    } else if s[0] != '$' {
      ReplaceOneKey(s[1..], env, k);
      assert ReplaceAll(s, pattern, env[k])[1..] == ReplaceAll(s[1..], pattern, env[k]);
    } else {
      var u := s[1..];
      if k <= u {
        ReplaceHere(s, env, k);
      } else if HasKeyAt(u, env.Keys) {
        var l :| l in env && l <= u;
        ReplaceBehind(s, env, k, l);
      } else {
        ReplaceElsewhere(s, env, k);
      }
    }
  }

  lemma ReplaceHere(s: string, env: Values, k: string)
    requires PlainValues(env) && k in env && Settled(s, env.Keys)
    requires s != "" && s[0] == '$' && k <= s[1..]
    ensures Agrees(s, env, k)
    decreases |s|, 0
  {
    var pattern, u, rest := "$" + k, s[1..], env - {k};
    var after := u[|k|..];
    assert u == k + after && s == pattern + after && s[|pattern|..] == after && s[1 + |k|..] == after;
    SettledPast(k, after, env.Keys);
    ReplaceOneKey(after, env, k);
    var r := ReplaceAll(after, pattern, env[k]);
    SettledPast(env[k], r, rest.Keys);
    SimultaneousPast(env[k], r, rest);
    SimultaneousAtKey(s, env, k);
  }

  lemma ReplaceBehind(s: string, env: Values, k: string, l: string)
    requires PlainValues(env) && k in env && Settled(s, env.Keys)
    requires s != "" && s[0] == '$' && !(k <= s[1..]) && l in env && l <= s[1..]
    ensures Agrees(s, env, k)
    decreases |s|, 0
  {
    var pattern, u, rest := "$" + k, s[1..], env - {k};
    var after := u[|l|..];
    assert u == l + after && s[1 + |l|..] == after;
    PrefixAfterDollar(k, s);
    SettledPast(l, after, env.Keys);
    ReplaceOneKey(after, env, k);
    var r := ReplaceAll(after, pattern, env[k]);
    ReplacePast(l, after, pattern, env[k]);
    var w := "$" + (l + r);
    assert ReplaceAll(s, pattern, env[k]) == w;
    assert w[1..] == l + r && w[1 + |l|..] == r;
    RunPast(l, r);
    SettledPast(l, r, rest.Keys);
    SimultaneousAtKey(s, env, l);
    SimultaneousAtKey(w, rest, l);
  }

  lemma ReplaceElsewhere(s: string, env: Values, k: string)
    requires PlainValues(env) && k in env && Settled(s, env.Keys)
    requires s != "" && s[0] == '$' && !HasKeyAt(s[1..], env.Keys)
    ensures Agrees(s, env, k)
    decreases |s|, 0
  {
    var pattern, u, rest := "$" + k, s[1..], env - {k};
    PrefixAfterDollar(k, s);
    ReplaceOneKey(u, env, k);
    var r := ReplaceAll(u, pattern, env[k]);
    var w := "$" + r;
    assert ReplaceAll(s, pattern, env[k]) == w && w[1..] == r;
    var t := Run(u);
    var tail := ReplaceAll(u[|t|..], pattern, env[k]);
    assert u == t + u[|t|..];
    ReplacePast(t, u[|t|..], pattern, env[k]);
    assert r == t + tail;
    RunPast(t, tail);
    NoKeyContinues(t, u, r, env.Keys);
  }

  /** If no key starts u and none continues its text t up to the next dollar sign, no
      key starts or continues anything that begins with t. */
  lemma NoKeyContinues(t: string, u: string, r: string, keys: set<string>)
    requires t <= u && t <= r && t <= Run(r) && !HasKeyAt(u, keys) && SettledAt(t, keys)
    ensures !HasKeyAt(r, keys)
    ensures forall l | l in keys :: !(Run(r) <= l)
  {
    NoShorterPrefix(t, u, keys);
    forall l | l in keys ensures !(Run(r) <= l) && !(l <= r) {
      PrefixOfRun(t, Run(r), l);
      Comparable(l, t, r);
    }
  }

  lemma NoShorterPrefix(t: string, u: string, keys: set<string>)
    requires t <= u && !HasKeyAt(u, keys)
    ensures !HasKeyAt(t, keys)
  {
    forall l | l in keys ensures !(l <= t) { assert l <= t ==> l <= u; }
  }

  lemma PrefixOfRun(t: string, t': string, l: string)
    requires t <= t'
    ensures t' <= l ==> t <= l
  {
  }

  // ---------------------------------------------------------------- any order

  lemma {:induction false} NothingToReplace(s: string)
    ensures Simultaneous(s, map[]) == s
  {
    if s != "" { NothingToReplace(s[1..]); }
  }

  /** If no key is a prefix of another, keys and values have no dollar sign, and every
      dollar sign of the template starts a key or a text no key continues, then every
      order of replacements gives the simultaneous substitution. */
  lemma {:induction false} OrderDoesNotMatter(s: string, env: Values, order: seq<string>)
    requires PlainValues(env) && Settled(s, env.Keys) && IsOrdering(order, env.Keys)
    ensures Sequential(s, env, order) == Simultaneous(s, env)
    decreases |order|
  {
    if order == [] {
      assert env == map[];
      NothingToReplace(s);
    } else {
      var k := order[0];
      var rest, tail := env - {k}, order[1..];
      assert forall i | 1 <= i < |order| :: order[i] == tail[i - 1];
      ReplaceOneKey(s, env, k);
      OrderDoesNotMatter(ReplaceAll(s, "$" + k, env[k]), rest, tail);
      SequentialFrame(ReplaceAll(s, "$" + k, env[k]), env, rest, tail);
    }
  }

  lemma {:induction false} SequentialFrame(s: string, env: Values, env': Values, order: seq<string>)
    requires forall k | k in order :: k in env && k in env' && env[k] == env'[k]
    ensures Sequential(s, env, order) == Sequential(s, env', order)
    decreases |order|
  {
    if order != [] {
      SequentialFrame(ReplaceAll(s, "$" + order[0], env[order[0]]), env, env', order[1..]);
    }
  }

  // ---------------------------------------------------------------- exactly when the order matters

  ghost predicate OrdersAgree(s: string, env: Values) {
    forall o, o' | IsOrdering(o, env.Keys) && IsOrdering(o', env.Keys) ::
      Sequential(s, env, o) == Sequential(s, env, o')
  }

  ghost predicate PrefixFree(keys: set<string>) {
    forall k, l | k in keys && l in keys && k <= l :: k == l
  }

  ghost predicate PlainKeys(keys: set<string>) {
    forall k | k in keys :: DollarFree(k)
  }

  ghost predicate DollarFreeValues(env: Values) {
    forall k | k in env :: DollarFree(env[k])
  }

  lemma {:induction false} SequentialPast(t: string, env: Values, order: seq<string>)
    requires DollarFree(t) && forall k | k in order :: k in env
    ensures Sequential(t, env, order) == t
    decreases |order|
  {
    if order != [] {
      ReplacePast(t, "", "$" + order[0], env[order[0]]);
      assert t + "" == t;
      SequentialPast(t, env, order[1..]);
    }
  }

  /** A dollar sign and a text that none of the keys starts: nothing is replaced. */
  lemma {:induction false} SequentialMisses(t: string, env: Values, order: seq<string>)
    requires DollarFree(t) && forall k | k in order :: k in env && !(k <= t)
    ensures Sequential("$" + t, env, order) == "$" + t
    decreases |order|
  {
    if order != [] {
      Misses(t, order[0], env[order[0]]);
      assert order[0] in order;
      SequentialMisses(t, env, order[1..]);
    }
  }

  lemma Misses(t: string, k: string, value: string)
    requires DollarFree(t) && !(k <= t)
    ensures ReplaceAll("$" + t, "$" + k, value) == "$" + t
  {
    var s := "$" + t;
    assert s[1..] == t && t + "" == t;
    PrefixAfterDollar(k, s);
    ReplacePast(t, "", "$" + k, value);
  }

  lemma Hits(k: string, rest: string, value: string)
    requires DollarFree(rest)
    ensures ReplaceAll("$" + (k + rest), "$" + k, value) == value + rest
  {
    var s, pattern := "$" + (k + rest), "$" + k;
    assert s == pattern + rest && s[|pattern|..] == rest && rest + "" == rest;
    ReplacePast(rest, "", pattern, value);
  }

  lemma FirstThen(s: string, env: Values, k: string, order: seq<string>)
    requires k in env && forall l | l in order :: l in env
    ensures Sequential(s, env, [k] + order) == Sequential(ReplaceAll(s, "$" + k, env[k]), env, order)
  {
    assert ([k] + order)[1..] == order;
  }

  /** An ordering that begins with the given keys. */
  lemma OrderingFrom(keys: set<string>, k: string, l: string) returns (rest: seq<string>)
    requires k in keys && l in keys && k != l
    ensures IsOrdering(rest, keys - {k, l})
    ensures IsOrdering([k] + ([l] + rest), keys) && IsOrdering([l] + ([k] + rest), keys)
  {
    rest := SomeOrdering(keys - {k, l});
    IsOrderingWith(keys, k, l, rest);
    IsOrderingWith(keys, l, k, rest);
  }

  lemma IsOrderingWith(keys: set<string>, k: string, l: string, rest: seq<string>)
    requires k in keys && l in keys && k != l && IsOrdering(rest, keys - {k, l})
    ensures IsOrdering([k] + ([l] + rest), keys)
  {
    var o := [k] + ([l] + rest);
    assert forall i | 0 <= i < |o| :: o[i] == if i == 0 then k else if i == 1 then l else rest[i - 2];
    forall x | x in keys ensures x in o {
      if x == k { assert o[0] == x; } else if x == l { assert o[1] == x; }
    }
  }

  lemma DollarSettled(l: string, keys: set<string>)
    requires l in keys && DollarFree(l)
    ensures Settled("$" + l, keys)
  {
    var s := "$" + l;
    assert s[1..] == l && l + "" == l;
    RunPast(l, "");
    assert Run(l) == l;
    SettledPast(l, "", keys);
  }

  /** A key before a longer one that it starts: the shorter one's value is put in and the
      rest of the longer one is left; or the longer one's value is put in. */
  lemma PrefixKeysDiffer(env: Values, k: string, l: string, order: seq<string>)
    requires k in env && l in env && k <= l && PlainKeys(env.Keys) && DollarFreeValues(env)
    requires forall j | j in order :: j in env
    ensures Sequential("$" + l, env, [k] + ([l] + order)) == env[k] + l[|k|..]
    ensures Sequential("$" + l, env, [l] + ([k] + order)) == env[l]
  {
    var rest := l[|k|..];
    assert l == k + rest && l == l + "";
    FirstThen("$" + l, env, k, [l] + order);
    Hits(k, rest, env[k]);
    SequentialPast(env[k] + rest, env, [l] + order);
    FirstThen("$" + l, env, l, [k] + order);
    Hits(l, "", env[l]);
    assert env[l] + "" == env[l];
    SequentialPast(env[l], env, [k] + order);
  }

  /** The value v for the key k and w for all others. */
  function Assign(keys: set<string>, k: string, v: string, w: string): (env: Values)
    requires k in keys
    ensures env.Keys == keys && env[k] == v && forall j | j in keys && j != k :: env[j] == w
  {
    map j | j in keys :: if j == k then v else w
  }

  lemma TwoOrdersDiffer(s: string, env: Values, k: string, l: string, rest: seq<string>)
    requires IsOrdering([k] + ([l] + rest), env.Keys) && IsOrdering([l] + ([k] + rest), env.Keys)
    requires Sequential(s, env, [k] + ([l] + rest)) != Sequential(s, env, [l] + ([k] + rest))
    ensures !OrdersAgree(s, env)
  {
  }

  /** A settled template and dollar-free values on which two orders differ. */
  lemma PrefixWitness(keys: set<string>) returns (s: string, env: Values)
    requires PlainKeys(keys) && !PrefixFree(keys)
    ensures Settled(s, keys) && env.Keys == keys && DollarFreeValues(env) && !OrdersAgree(s, env)
  {
    var k, l :| k in keys && l in keys && k <= l && k != l;
    s, env := "$" + l, Assign(keys, k, "x", "");
    var rest := OrderingFrom(keys, k, l);
    DollarSettled(l, keys);
    PrefixKeysDiffer(env, k, l, rest);
    TwoOrdersDiffer(s, env, k, l, rest);
  }

  ghost predicate SettledTemplatesAgree(keys: set<string>) {
    forall s, env: Values | Settled(s, keys) && env.Keys == keys && DollarFreeValues(env) :: OrdersAgree(s, env)
  }

  /** For every set of dollar-free keys: every settled template and all dollar-free values
      give the same in every order if and only if no key is a prefix of another. */
  lemma OrderMattersForPrefixes(keys: set<string>)
    requires PlainKeys(keys)
    ensures SettledTemplatesAgree(keys) <==> PrefixFree(keys)
  {
    if PrefixFree(keys) {
      forall s, env: Values | Settled(s, keys) && env.Keys == keys && DollarFreeValues(env)
        ensures OrdersAgree(s, env)
      {
        SettledAgrees(s, env);
      }
    } else {
      var s, env := PrefixWitness(keys);
    }
  }

  lemma SettledAgrees(s: string, env: Values)
    requires PlainKeys(env.Keys) && PrefixFree(env.Keys) && DollarFreeValues(env) && Settled(s, env.Keys)
    ensures OrdersAgree(s, env)
  {
    forall o, o' | IsOrdering(o, env.Keys) && IsOrdering(o', env.Keys)
      ensures Sequential(s, env, o) == Sequential(s, env, o')
    {
      OrderDoesNotMatter(s, env, o);
      OrderDoesNotMatter(s, env, o');
    }
  }

  lemma OneKeyAgrees(s: string, env: Values)
    requires |env.Keys| <= 1
    ensures OrdersAgree(s, env)
  {
    forall o, o' | IsOrdering(o, env.Keys) && IsOrdering(o', env.Keys)
      ensures Sequential(s, env, o) == Sequential(s, env, o')
    {
      OrderingSize(o, env.Keys);
      OrderingSize(o', env.Keys);
      if |o| == 1 {
        assert o[0] in o';
        assert o == o';
      }
    }
  }

  lemma {:induction false} OrderingSize(order: seq<string>, keys: set<string>)
    requires IsOrdering(order, keys)
    ensures |order| == |keys|
    decreases |order|
  {
    if order == [] {
      assert keys == {};
    } else {
      var tail := order[1..];
      assert forall i | 1 <= i < |order| :: order[i] == tail[i - 1];
      assert order == [order[0]] + tail;
      OrderingSize(tail, keys - {order[0]});
    }
  }

  lemma TwoOf(keys: set<string>) returns (k: string, l: string)
    requires |keys| > 1
    ensures k in keys && l in keys && k != l
  {
    k :| k in keys;
    assert |keys - {k}| > 0;
    l :| l in keys - {k};
  }

  /** A value that is a dollar sign and another key. */
  lemma DollarValuesDiffer(env: Values, k: string, l: string, order: seq<string>)
    requires PlainKeys(env.Keys) && PrefixFree(env.Keys) && k in env && l in env && k != l
    requires env[k] == "$" + l && DollarFree(env[l])
    requires forall j | j in order :: j in env && j != k && j != l
    ensures Sequential("$" + k, env, [k] + ([l] + order)) == env[l]
    ensures Sequential("$" + k, env, [l] + ([k] + order)) == "$" + l
  {
    assert k + "" == k && l + "" == l && env[l] + "" == env[l] && env[k] + "" == env[k];
    FirstThen("$" + k, env, k, [l] + order);
    Hits(k, "", env[k]);
    FirstThen("$" + l, env, l, order);
    Hits(l, "", env[l]);
    SequentialPast(env[l], env, order);
    FirstThen("$" + k, env, l, [k] + order);
    Misses(k, l, env[l]);
    FirstThen("$" + k, env, k, order);
    SequentialMisses(l, env, order);
  }

  lemma DollarValueWitness(keys: set<string>) returns (s: string, env: Values)
    requires PlainKeys(keys) && PrefixFree(keys) && |keys| > 1
    ensures Settled(s, keys) && env.Keys == keys && !OrdersAgree(s, env)
  {
    var k, l := TwoOf(keys);
    s, env := "$" + k, Assign(keys, k, "$" + l, "");
    var rest := OrderingFrom(keys, k, l);
    DollarSettled(k, keys);
    DollarValuesDiffer(env, k, l, rest);
    TwoOrdersDiffer(s, env, k, l, rest);
  }

  ghost predicate AllValuesAgree(keys: set<string>) {
    forall s, env: Values | Settled(s, keys) && env.Keys == keys :: OrdersAgree(s, env)
  }

  /** Dollar-free, prefix-free keys: if the values may have dollar signs, the order is
      immaterial if and only if there is no second key. */
  lemma OrderMattersForDollarValues(keys: set<string>)
    requires PlainKeys(keys) && PrefixFree(keys)
    ensures AllValuesAgree(keys) <==> |keys| <= 1
  {
    if |keys| <= 1 {
      forall s, env: Values | Settled(s, keys) && env.Keys == keys ensures OrdersAgree(s, env) { OneKeyAgrees(s, env); }
    } else {
      var s, env := DollarValueWitness(keys);
    }
  }

  /** A dollar sign before the dollar sign of a key, and the key's value another key. */
  lemma DanglingDollarsDiffer(env: Values, k: string, l: string, order: seq<string>)
    requires PlainKeys(env.Keys) && PrefixFree(env.Keys) && k in env && l in env && k != l
    requires env[k] == l && DollarFree(env[l])
    requires forall j | j in order :: j in env && j != k && j != l
    ensures Sequential("$$" + k, env, [k] + ([l] + order)) == env[l]
    ensures Sequential("$$" + k, env, [l] + ([k] + order)) == "$" + l
  {
    assert k + "" == k && l + "" == l && env[l] + "" == env[l];
    Behind(k, k, env[k]);
    Hits(k, "", l);
    FirstThen("$$" + k, env, k, [l] + order);
    FirstThen("$" + l, env, l, order);
    Hits(l, "", env[l]);
    SequentialPast(env[l], env, order);
    Behind(k, l, env[l]);
    Misses(k, l, env[l]);
    FirstThen("$$" + k, env, l, [k] + order);
    FirstThen("$$" + k, env, k, order);
    SequentialMisses(l, env, order);
  }

  /** A nonempty key never starts at a dollar sign that is followed by another. */
  lemma Behind(k: string, l: string, value: string)
    requires l != "" && DollarFree(l)
    ensures ReplaceAll("$$" + k, "$" + l, value) == "$" + ReplaceAll("$" + k, "$" + l, value)
  {
    var s := "$$" + k;
    assert s[1..] == "$" + k && l[0] in l;
    HeadsDiffer(l, s[1..]);
    PrefixAfterDollar(l, s);
  }

  lemma HeadsDiffer(l: string, u: string)
    requires l != "" && u != "" && l[0] != u[0]
    ensures !(l <= u)
  {
  }

  lemma DanglingWitness(keys: set<string>) returns (s: string, env: Values)
    requires PlainKeys(keys) && PrefixFree(keys) && |keys| > 1
    ensures env.Keys == keys && DollarFreeValues(env) && !OrdersAgree(s, env)
  {
    var k, l := TwoOf(keys);
    assert "" <= k && "" <= l;
    s, env := "$$" + k, Assign(keys, k, l, "");
    var rest := OrderingFrom(keys, k, l);
    DanglingDollarsDiffer(env, k, l, rest);
    TwoOrdersDiffer(s, env, k, l, rest);
  }

  ghost predicate AllTemplatesAgree(keys: set<string>) {
    forall s, env: Values | env.Keys == keys && DollarFreeValues(env) :: OrdersAgree(s, env)
  }

  /** Dollar-free, prefix-free keys: if dollar signs of the template may dangle, the order
      is immaterial if and only if there is no second key. */
  lemma OrderMattersForDanglingDollars(keys: set<string>)
    requires PlainKeys(keys) && PrefixFree(keys)
    ensures AllTemplatesAgree(keys) <==> |keys| <= 1
  {
    if |keys| <= 1 {
      forall s, env: Values | env.Keys == keys && DollarFreeValues(env) ensures OrdersAgree(s, env) {
        OneKeyAgrees(s, env);
      }
    } else {
      var s, env := DanglingWitness(keys);
    }
  }
}
