/** The counters of workflow/common.go, incremented without a lock by the goroutines of
    one event: each increment is a load and a store, and other goroutines may run between. */
module RacyCounter {

  datatype Phase = Idle | Loaded(v: int) | Stored

  datatype State = State(counter: int, threads: seq<Phase>)

  datatype Step = Load(t: nat) | Store(t: nat)

  predicate Enabled(s: State, step: Step) {
    step.t < |s.threads| && if step.Load? then s.threads[step.t].Idle? else s.threads[step.t].Loaded?
  }

  function Next(s: State, step: Step): State
    requires Enabled(s, step)
  {
    if step.Load? then s.(threads := s.threads[step.t := Loaded(s.counter)])
    else State(s.threads[step.t].v + 1, s.threads[step.t := Stored])
  }

  /** The interleaving leads from s to s'. */
  predicate Runs(s: State, trace: seq<Step>, s': State)
    decreases |trace|
  {
    if trace == [] then s == s' else Enabled(s, trace[0]) && Runs(Next(s, trace[0]), trace[1..], s')
  }

  function Initial(start: int, n: nat): State {
    State(start, seq(n, _ => Idle))
  }

  function Stores(threads: seq<Phase>): nat {
    if threads == [] then 0 else (if threads[0].Stored? then 1 else 0) + Stores(threads[1..])
  }

  lemma {:induction false} StoresAfter(threads: seq<Phase>, t: nat, p: Phase)
    requires t < |threads| && !threads[t].Stored?
    ensures Stores(threads[t := p]) == Stores(threads) + if p.Stored? then 1 else 0
    decreases |threads|
  {
    if t > 0 {
      assert threads[t := p][1..] == threads[1..][t - 1 := p];
      StoresAfter(threads[1..], t - 1, p);
    }
  }

  lemma {:induction false} AllStored(threads: seq<Phase>)
    ensures Stores(threads) <= |threads|
    ensures (forall t | 0 <= t < |threads| :: threads[t].Stored?) ==> Stores(threads) == |threads|
    ensures (forall t | 0 <= t < |threads| :: !threads[t].Stored?) ==> Stores(threads) == 0
  {
    if threads != [] {
      AllStored(threads[1..]);
      assert forall t | 0 < t < |threads| :: threads[t] == threads[1..][t - 1];
    }
  }

  /** No increment is invented and not all are lost. */
  predicate Bounded(start: int, s: State) {
    && start <= s.counter <= start + Stores(s.threads)
    && (Stores(s.threads) > 0 ==> start < s.counter)
    && forall t | 0 <= t < |s.threads| && s.threads[t].Loaded? :: start <= s.threads[t].v <= start + Stores(s.threads)
  }

  lemma {:induction false} RunStaysBounded(start: int, s: State, trace: seq<Step>, s': State)
    requires Bounded(start, s) && Runs(s, trace, s')
    ensures Bounded(start, s') && |s'.threads| == |s.threads|
    decreases |trace|
  {
    if trace != [] {
      StoresAfter(s.threads, trace[0].t, Next(s, trace[0]).threads[trace[0].t]);
      RunStaysBounded(start, Next(s, trace[0]), trace[1..], s');
    }
  }

  /** In every interleaving the counter stays at most the start plus the stores done so
      far, and once any store is done it is above the start. */
  lemma CounterBounds(start: int, n: nat, trace: seq<Step>, s: State)
    requires Runs(Initial(start, n), trace, s)
    ensures start <= s.counter <= start + Stores(s.threads) <= start + n
    ensures Stores(s.threads) > 0 ==> s.counter > start
  {
    AllStored(Initial(start, n).threads);
    RunStaysBounded(start, Initial(start, n), trace, s);
    AllStored(s.threads);
  }

  // ---------------------------------------------------------------- which values are reached

  lemma {:induction false} RunsThen(s: State, a: seq<Step>, m: State, b: seq<Step>, s': State)
    requires Runs(s, a, m) && Runs(m, b, s')
    ensures Runs(s, a + b, s')
    decreases |a|
  {
    if a == [] {
      assert a + b == b;
    } else {
      assert (a + b)[1..] == a[1..] + b;
      RunsThen(Next(s, a[0]), a[1..], m, b, s');
    }
  }

  function Split(n: nat, m: nat, first: Phase, rest: Phase): seq<Phase>
    requires m <= n
  {
    seq(n, t requires 0 <= t < n => if t < m then first else rest)
  }

  /** The first m goroutines load before any stores. */
  lemma {:induction false} LoadTogether(start: int, n: nat, m: nat) returns (trace: seq<Step>)
    requires m <= n
    ensures Runs(Initial(start, n), trace, State(start, Split(n, m, Loaded(start), Idle)))
    decreases m
  {
    if m == 0 {
      assert Initial(start, n).threads == Split(n, 0, Loaded(start), Idle);
      return [];
    }
    var before := LoadTogether(start, n, m - 1);
    var s, s' := State(start, Split(n, m - 1, Loaded(start), Idle)), State(start, Split(n, m, Loaded(start), Idle));
    assert s.threads[m - 1 := Loaded(start)] == s'.threads;
    assert Next(s, Load(m - 1)) == s' && [Load(m - 1)][1..] == [];
    RunsThen(Initial(start, n), before, s, [Load(m - 1)], s');
    return before + [Load(m - 1)];
  }

  function MidStores(start: int, n: nat, m: nat, k: nat): State
    requires k <= m <= n
  {
    State(if k == 0 then start else start + 1,
      seq(n, t requires 0 <= t < n => if t < k then Stored else if t < m then Loaded(start) else Idle))
  }

  /** Then they store, each the same value. */
  lemma {:induction false} StoreTogether(start: int, n: nat, m: nat, k: nat) returns (trace: seq<Step>)
    requires k <= m <= n
    ensures Runs(State(start, Split(n, m, Loaded(start), Idle)), trace, MidStores(start, n, m, k))
    decreases k
  {
    if k == 0 {
      assert Split(n, m, Loaded(start), Idle) == MidStores(start, n, m, 0).threads;
      return [];
    }
    var before := StoreTogether(start, n, m, k - 1);
    var s, s' := MidStores(start, n, m, k - 1), MidStores(start, n, m, k);
    assert s.threads[k - 1 := Stored] == s'.threads;
    assert Next(s, Store(k - 1)) == s' && [Store(k - 1)][1..] == [];
    RunsThen(State(start, Split(n, m, Loaded(start), Idle)), before, s, [Store(k - 1)], s');
    return before + [Store(k - 1)];
  }

  /** The others follow one after another, each counted. */
  lemma {:induction false} OneByOne(from: int, n: nat, m: nat, k: nat) returns (trace: seq<Step>)
    requires m <= k <= n
    ensures Runs(State(from, Split(n, m, Stored, Idle)), trace, State(from + k - m, Split(n, k, Stored, Idle)))
    decreases k
  {
    if k == m {
      return [];
    }
    var before := OneByOne(from, n, m, k - 1);
    var value := from + k - 1 - m;
    var s, s' := State(value, Split(n, k - 1, Stored, Idle)), State(value + 1, Split(n, k, Stored, Idle));
    var mid := Next(s, Load(k - 1));
    assert s.threads[k - 1 := Loaded(value)][k - 1 := Stored] == s'.threads;
    assert Next(mid, Store(k - 1)) == s' && [Load(k - 1), Store(k - 1)][1..] == [Store(k - 1)]
      && [Store(k - 1)][1..] == [];
    assert Runs(mid, [Store(k - 1)], s');
    RunsThen(State(from, Split(n, m, Stored, Idle)), before, s, [Load(k - 1), Store(k - 1)], s');
    return before + [Load(k - 1), Store(k - 1)];
  }

  ghost predicate CanEndAt(start: int, n: nat, value: int) {
    exists trace: seq<Step>, s: State ::
      Runs(Initial(start, n), trace, s) && s.counter == value && Stores(s.threads) == n
  }

  /** The values n racing increments can leave are exactly those from one to n above the
      start: all but one increment may be lost. */
  lemma PossibleEnds(start: int, n: nat, value: int)
    requires n > 0
    ensures CanEndAt(start, n, value) <==> start + 1 <= value <= start + n
  {
    if CanEndAt(start, n, value) {
      var trace: seq<Step>, s: State :| Runs(Initial(start, n), trace, s) && s.counter == value
        && Stores(s.threads) == n;
      CounterBounds(start, n, trace, s);
    }
    if start + 1 <= value <= start + n {
      var m: nat := n - (value - start) + 1;
      var loads := LoadTogether(start, n, m);
      var stores := StoreTogether(start, n, m, m);
      var rest := OneByOne(start + 1, n, m, n);
      var afterLoads := State(start, Split(n, m, Loaded(start), Idle));
      var afterStores := State(start + 1, Split(n, m, Stored, Idle));
      assert MidStores(start, n, m, m).threads == afterStores.threads;
      var end := State(value, Split(n, n, Stored, Idle));
      RunsThen(Initial(start, n), loads, afterLoads, stores, afterStores);
      RunsThen(Initial(start, n), loads + stores, afterStores, rest, end);
      AllStored(end.threads);
    }
  }
}
