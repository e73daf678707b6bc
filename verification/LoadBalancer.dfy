/** The balancers of internal/loadbalancer: smooth weighted round robin and plain round robin.

    A backend's health may change at any time, and Next reads it once per backend. A call therefore
    takes the set of positions that read healthy during that call. */
module LoadBalancer {
  import opened Counting
  import opened Wrappers
  import opened SmoothWeighted

  datatype Error = NoBackends | NoHealthyBackends

  datatype Backend = Backend(addr: string, weight: int)

  function NewBackendWithWeight(addr: string, weight: int): (b: Backend)
    ensures b.addr == addr && b.weight >= 1
    ensures if weight >= 1 then b.weight == weight else b.weight == 1
  {
    Backend(addr, if weight < 1 then 1 else weight)
  }

  /** Health flags of n positions, given the positions that read healthy. */
  function Flags(n: nat, up: set<nat>): (f: seq<bool>)
    ensures |f| == n && forall i :: 0 <= i < n ==> f[i] == (i in up)
  {
    seq(n, i requires 0 <= i => i in up)
  }

  // ------------------------------------------------- weighted round robin, as a table of values

  datatype WeightedBackend = WeightedBackend(backend: Backend, effectiveWeight: int, currentWeight: int)

  type Table = seq<WeightedBackend>

  function Wrap(bs: seq<Backend>): (t: Table)
    ensures |t| == |bs|
    ensures forall i :: 0 <= i < |bs| ==> t[i] == WeightedBackend(bs[i], bs[i].weight, 0)
  {
    seq(|bs|, i requires 0 <= i < |bs| => WeightedBackend(bs[i], bs[i].weight, 0))
  }

  function Currents(t: Table): (c: seq<int>)
    ensures |c| == |t|
  {
    seq(|t|, i requires 0 <= i < |t| => t[i].currentWeight)
  }

  function Weights(t: Table): (w: seq<int>)
    ensures |w| == |t|
  {
    seq(|t|, i requires 0 <= i < |t| => t[i].effectiveWeight)
  }

  function WithCurrents(t: Table, c: seq<int>): (r: Table)
    requires |c| == |t|
    ensures Currents(r) == c && Weights(r) == Weights(t)
  {
    var r := seq(|t|, i requires 0 <= i < |t| => t[i].(currentWeight := c[i]));
    assert Currents(r) == c && Weights(r) == Weights(t);
    r
  }

  /** The position Next selects, or -1. */
  function Choice(t: Table, up: set<nat>): int {
    Leader(Currents(t), Weights(t), Flags(|t|, up))
  }

  function Credited(t: Table, up: set<nat>): (c: seq<int>)
    ensures |c| == |t|
  {
    Credit(Currents(t), Weights(t), Flags(|t|, up))
  }

  lemma CreditedAt(t: Table, up: set<nat>, i: nat)
    requires i < |t|
    ensures Gain(Weights(t), Flags(|t|, up))[i] == if i in up then t[i].effectiveWeight else 0
    ensures Credited(t, up)[i] == t[i].currentWeight + (if i in up then t[i].effectiveWeight else 0)
  {
  }

  function AfterNext(t: Table, up: set<nat>): (r: Table)
    ensures |r| == |t|
  {
    WithCurrents(t, Advance(Currents(t), Weights(t), Flags(|t|, up)))
  }

  /** The first position holding addr, or |t|. */
  function Find(t: Table, addr: string): (k: nat)
    ensures k <= |t|
    ensures k < |t| ==> t[k].backend.addr == addr
    ensures forall i :: 0 <= i < k ==> t[i].backend.addr != addr
  {
    if t == [] || t[0].backend.addr == addr then 0 else 1 + Find(t[1..], addr)
  }

  /** Removal moves the last entry into the hole. */
  function Without(t: Table, k: nat): Table
    requires k < |t|
  {
    t[k := t[|t| - 1]][..|t| - 1]
  }

  lemma {:induction false} WithoutIsPermutation(t: Table, k: nat)
    requires k < |t|
    ensures multiset(Without(t, k)) + multiset{t[k]} == multiset(t)
    ensures |Without(t, k)| == |t| - 1
    ensures forall i :: 0 <= i < |t| - 1 ==> Without(t, k)[i] == if i == k then t[|t| - 1] else t[i]
  {
    var n := |t| - 1;
    var front, x := t[..n], t[n];
    assert t == front + [x];
    if k == n {
      assert Without(t, k) == front;
    } else {
      assert Without(t, k) == front[k := x];
      SwapIn(front, k, x);
    }
  }

  lemma {:induction false} SwapIn(front: Table, k: nat, x: WeightedBackend)
    requires k < |front|
    ensures multiset(front[k := x]) + multiset{front[k]} == multiset(front) + multiset{x}
  {
    var a, b := front[..k], front[k + 1..];
    assert front == a + [front[k]] + b;
    assert front[k := x] == a + [x] + b;
  }

  class WeightedRoundRobin {
    var backends: Table

    constructor (bs: seq<Backend>)
      ensures backends == Wrap(bs)
    {
      backends := Wrap(bs);
    }

    /** The scan of Next: credits every healthy backend and finds the leader and the total. */
    method CreditHealthy(up: set<nat>) returns (selected: int, totalWeight: int)
      modifies this
      ensures |backends| == |old(backends)|
      ensures backends == WithCurrents(old(backends), Credited(old(backends), up))
      ensures selected == Choice(old(backends), up) && -1 <= selected < |backends|
      ensures totalWeight == Total(Weights(old(backends)), Flags(|backends|, up))
    {
      ghost var t, n := backends, |backends|;
      ghost var f, gain, credit := Flags(n, up), Gain(Weights(t), Flags(n, up)), Credited(t, up);
      selected, totalWeight := -1, 0;
      for i := 0 to |backends|
        invariant |backends| == n
        invariant forall j :: 0 <= j < i ==> backends[j] == t[j].(currentWeight := credit[j])
        invariant forall j :: i <= j < n ==> backends[j] == t[j]
        invariant totalWeight == Sum(gain[..i])
        invariant -1 <= selected < i && selected == Scan(credit, f, i)
      {
        SumPrefix(gain, i);
        CreditedAt(t, up, i);
        if i in up {
          var b := backends[i];
          backends := backends[i := b.(currentWeight := b.currentWeight + b.effectiveWeight)];
          totalWeight := totalWeight + b.effectiveWeight;
          if selected == -1 || backends[i].currentWeight > backends[selected].currentWeight {
            selected := i;
          }
        }
      }
      assert gain[..n] == gain;
      assert backends == WithCurrents(t, credit);
    }

    /** Selects the first backend with the largest credited weight and charges it the total. */
    method Next(up: set<nat>) returns (r: Result<Backend, Error>)
      modifies this
      ensures backends == AfterNext(old(backends), up)
      ensures r == Err(NoBackends) <==> |old(backends)| == 0
      ensures r == Err(NoHealthyBackends) <==>
              |old(backends)| > 0 && forall i: nat :: i < |old(backends)| ==> i !in up
      ensures r.Ok? ==>
              && IsLeader(Credited(old(backends), up), Flags(|backends|, up), |backends|, Choice(old(backends), up))
              && r.value == old(backends)[Choice(old(backends), up)].backend
    {
      if |backends| == 0 {
        return Err(NoBackends);
      }
      ScanFindsLeader(Credited(backends, up), Flags(|backends|, up), |backends|);
      var selected, totalWeight := CreditHealthy(up);
      if selected == -1 {
        assert forall i :: 0 <= i < |backends| ==> !Flags(|backends|, up)[i];
        assert Credited(old(backends), up) == Currents(old(backends));
        return Err(NoHealthyBackends);
      }
      var s := backends[selected];
      backends := backends[selected := s.(currentWeight := s.currentWeight - totalWeight)];
      return Ok(s.backend);
    }

    method AddBackend(b: Backend)
      modifies this
      ensures backends == old(backends) + Wrap([b])
    {
      backends := backends + [WeightedBackend(b, b.weight, 0)];
    }

    method RemoveBackend(addr: string) returns (found: bool)
      modifies this
      ensures found == (Find(old(backends), addr) < |old(backends)|)
      ensures backends == if found then Without(old(backends), Find(old(backends), addr)) else old(backends)
    {
      for i := 0 to |backends|
        invariant backends == old(backends)
        invariant forall j :: 0 <= j < i ==> backends[j].backend.addr != addr
      {
        if backends[i].backend.addr == addr {
          backends := backends[i := backends[|backends| - 1]];
          backends := backends[..|backends| - 1];
          return true;
        }
      }
      return false;
    }

    method UpdateBackends(bs: seq<Backend>)
      modifies this
      ensures backends == Wrap(bs)
    {
      backends := Wrap(bs);
    }
  }

  // ------------------------------------------------- whole runs of the weighted balancer

  datatype Op = Next(up: set<nat>) | Add(b: Backend) | Remove(addr: string) | Update(bs: seq<Backend>)

  function Apply(t: Table, op: Op): Table {
    match op
    case Next(up) => AfterNext(t, up)
    case Add(b) => t + Wrap([b])
    case Remove(addr) => if Find(t, addr) < |t| then Without(t, Find(t, addr)) else t
    case Update(bs) => Wrap(bs)
  }

  /** The running weight that an operation takes out of the table for good. */
  function Withdrawn(t: Table, op: Op): int {
    if op.Remove? && Find(t, op.addr) < |t| then t[Find(t, op.addr)].currentWeight else 0
  }

  function Run(bs: seq<Backend>, ops: seq<Op>): Table {
    if ops == [] then Wrap(bs) else Apply(Run(bs, ops[..|ops| - 1]), ops[|ops| - 1])
  }

  /** Running weight removed since the balancer was made or last replaced. */
  function Debt(bs: seq<Backend>, ops: seq<Op>): int {
    if ops == [] then 0
    else
      var prefix, op := ops[..|ops| - 1], ops[|ops| - 1];
      if op.Update? then 0 else Debt(bs, prefix) + Withdrawn(Run(bs, prefix), op)
  }

  lemma {:induction false} WrapIsBalanced(bs: seq<Backend>)
    ensures Sum(Currents(Wrap(bs))) == 0
  {
    SumAtMost(Currents(Wrap(bs)), 0);
    SumAtLeast(Currents(Wrap(bs)), 0);
  }

  lemma {:induction false} WithoutSum(t: Table, k: nat)
    requires k < |t|
    ensures Sum(Currents(Without(t, k))) + t[k].currentWeight == Sum(Currents(t))
  {
    var c, n := Currents(t), |t| - 1;
    SumUpdate(c, k, c[n]);
    var u := c[k := c[n]];
    assert u == u[..n] + [c[n]];
    SumAppend(u[..n], c[n]);
    assert Currents(Without(t, k)) == u[..n];
  }

  lemma {:induction false} ApplyKeepsBalance(t: Table, op: Op)
    ensures op.Update? ==> Sum(Currents(Apply(t, op))) == 0
    ensures !op.Update? ==> Sum(Currents(Apply(t, op))) + Withdrawn(t, op) == Sum(Currents(t))
  {
    match op
    case Next(up) =>
      AdvanceKeepsSum(Currents(t), Weights(t), Flags(|t|, up));
    case Add(b) =>
      assert Currents(t + Wrap([b])) == Currents(t) + [0];
      SumAppend(Currents(t), 0);
    case Remove(addr) =>
      if Find(t, addr) < |t| {
        WithoutSum(t, Find(t, addr));
      }
    case Update(bs) =>
      WrapIsBalanced(bs);
  }

  /** Conservation over every run, with any health flips and any reconfiguration: the running
      weights plus what removals took away sum to zero. */
  lemma {:induction false} RunConservation(bs: seq<Backend>, ops: seq<Op>)
    ensures Sum(Currents(Run(bs, ops))) + Debt(bs, ops) == 0
  {
    if ops == [] {
      WrapIsBalanced(bs);
    } else {
      RunConservation(bs, ops[..|ops| - 1]);
      ApplyKeepsBalance(Run(bs, ops[..|ops| - 1]), ops[|ops| - 1]);
    }
  }

  /** So from a balanced table a removal keeps the sum at zero exactly when the backend it takes
      out had a running weight of zero. */
  lemma {:induction false} RemovalKeepsZeroSumIff(t: Table, addr: string)
    requires Sum(Currents(t)) == 0
    ensures Sum(Currents(Apply(t, Remove(addr)))) == 0 <==>
            (Find(t, addr) < |t| ==> t[Find(t, addr)].currentWeight == 0)
  {
    ApplyKeepsBalance(t, Remove(addr));
  }

  /** Without removals, whatever the health flips, additions and updates, the sum stays at zero. */
  lemma {:induction false} BalancedWithoutRemovals(bs: seq<Backend>, ops: seq<Op>)
    requires forall i :: 0 <= i < |ops| ==> !ops[i].Remove?
    ensures Debt(bs, ops) == 0 && Sum(Currents(Run(bs, ops))) == 0
  {
    RunConservation(bs, ops);
    NoDebt(bs, ops);
  }

  lemma {:induction false} NoDebt(bs: seq<Backend>, ops: seq<Op>)
    requires forall i :: 0 <= i < |ops| ==> !ops[i].Remove?
    ensures Debt(bs, ops) == 0
  {
    if ops == [] {
    } else {
      NoDebt(bs, ops[..|ops| - 1]);
    }
  }

  /** Two backends of weight 1, called once: the first has paid, the second has credit. */
  lemma {:induction false} FirstOfTwo(t: Table, up: set<nat>)
    requires t == Wrap([Backend("a", 1), Backend("b", 1)]) && up == {0, 1}
    ensures Currents(AfterNext(t, up)) == [-1, 1]
    ensures AfterNext(t, up)[0].backend.addr == "a"
  {
    var c, w, f := Currents(t), Weights(t), Flags(|t|, up);
    assert c == [0, 0] && w == [1, 1] && f == [true, true];
    assert Gain(w, f) == [] + [1] + [1];
    SumAppend([] + [1], 1);
    SumAppend([], 1);
    assert Credit(c, w, f) == [1, 1];
    LeaderIsUnique(c, w, f, 0);
    assert Advance(c, w, f) == [-1, 1];
  }

  /** A reachable removal that breaks the sum: after one call, taking out the backend that paid. */
  lemma {:induction false} RemovalCanBreakBalance(bs: seq<Backend>, ops: seq<Op>)
    requires bs == [Backend("a", 1), Backend("b", 1)] && ops == [Next({0, 1}), Remove("a")]
    ensures Sum(Currents(Run(bs, ops))) == 1
  {
    var t := Wrap(bs);
    var one := AfterNext(t, {0, 1});
    FirstOfTwo(t, {0, 1});
    assert ops[..1] == [Next({0, 1})] && [Next({0, 1})][..0] == [];
    assert Run(bs, [Next({0, 1})]) == one;
    assert Find(one, "a") == 0;
    assert Currents(one)[0] == one[0].currentWeight;
    RunConservation(bs, [Next({0, 1})]);
    assert Debt(bs, [Next({0, 1})]) == 0;
    ApplyKeepsBalance(one, Remove("a"));
  }

  function Repeat(t: Table, up: set<nat>, calls: nat): (r: Table)
    ensures |r| == |t|
  {
    if calls == 0 then t else AfterNext(Repeat(t, up, calls - 1), up)
  }

  lemma NextFollowsWeights(t: Table, c: seq<int>, up: set<nat>)
    requires |c| == |t|
    ensures AfterNext(WithCurrents(t, c), up) == WithCurrents(t, Advance(c, Weights(t), Flags(|t|, up)))
  {
  }

  lemma {:induction false} RepeatFollowsWeights(t: Table, up: set<nat>, calls: nat)
    ensures Repeat(t, up, calls)
         == WithCurrents(t, After(Currents(t), Weights(t), Flags(|t|, up), calls))
  {
    if calls == 0 {
      assert WithCurrents(t, Currents(t)) == t;
    } else {
      RepeatFollowsWeights(t, up, calls - 1);
      NextFollowsWeights(t, After(Currents(t), Weights(t), Flags(|t|, up), calls - 1), up);
    }
  }

  /** Whether call number x (counting from 0) selects position i. */
  function Chooses(t: Table, up: set<nat>, i: int): nat -> bool {
    (x: nat) => Choice(Repeat(t, up, x), up) == i
  }

  /** How many of the first calls selected position i. */
  function Selections(t: Table, up: set<nat>, calls: nat, i: int): nat {
    Count(Chooses(t, up, i), 0, calls)
  }

  lemma {:induction false} ChoiceIsPick(t: Table, up: set<nat>, calls: nat)
    ensures Choice(Repeat(t, up, calls), up) == PickAt(Currents(t), Weights(t), Flags(|t|, up), calls)
  {
    RepeatFollowsWeights(t, up, calls);
  }

  lemma {:induction false} SelectionsArePicks(t: Table, up: set<nat>, calls: nat, i: int)
    ensures Selections(t, up, calls, i) == Picks(Currents(t), Weights(t), Flags(|t|, up), calls, i)
  {
    var c, w, f := Currents(t), Weights(t), Flags(|t|, up);
    forall x: nat ensures Chooses(t, up, i)(x) == PickedAt(c, w, f, i)(x) {
      ChoiceIsPick(t, up, x);
    }
    CountSame(Chooses(t, up, i), PickedAt(c, w, f, i), 0, calls);
    PicksIsCount(c, w, f, calls, i);
  }

  /** The law the balancer exists for: a new balancer over healthy backends, called k times the sum
      of the weights, is back in its initial state and has selected each backend k times its weight. */
  lemma {:induction false} FullCycles(bs: seq<Backend>, up: set<nat>, k: nat, calls: nat)
    requires bs != [] && forall i: nat :: i < |bs| ==> i in up && bs[i].weight >= 1
    requires calls == k * Sum(Weights(Wrap(bs)))
    ensures Repeat(Wrap(bs), up, calls) == Wrap(bs)
    ensures forall i: nat :: i < |bs| ==> Selections(Wrap(bs), up, calls, i) == k * bs[i].weight
  {
    var t := Wrap(bs);
    var c, w, f := Currents(t), Weights(t), Flags(|t|, up);
    assert f[0];
    assert Gain(w, f) == w;
    CycleIsExact(c, w, f, k, calls);
    RepeatFollowsWeights(t, up, calls);
    assert WithCurrents(t, c) == t;
    forall i: nat | i < |bs| ensures Selections(t, up, calls, i) == k * bs[i].weight {
      SelectionsArePicks(t, up, calls, i);
    }
  }

  // ------------------------------------------------- plain round robin

  /** The position i steps after start on a ring of n positions. */
  function Ahead(n: nat, start: nat, i: nat): (p: nat)
    requires start < n && i <= n
    ensures p == if start + i < n then start + i else start + i - n
  {
    Wraps(n, start + i);
    (start + i) % n
  }

  lemma Wraps(n: nat, x: nat)
    requires 0 < n && x < 2 * n
    ensures x % n == if x < n then x else x - n
  {
  }

  /** The first healthy position at or after start, going round once; -1 when there is none. */
  function Probe(n: nat, up: set<nat>, start: nat, i: nat): int
    requires start < n && i <= n
    decreases n - i
  {
    if i == n then -1
    else if Ahead(n, start, i) in up then Ahead(n, start, i)
    else Probe(n, up, start, i + 1)
  }

  class RoundRobin {
    var backends: seq<Backend>
    var counter: nat

    constructor (bs: seq<Backend>)
      ensures backends == bs && counter == 0
    {
      backends, counter := bs, 0;
    }

    method Next(up: set<nat>) returns (r: Result<Backend, Error>)
      modifies this`counter
      ensures r == Err(NoBackends) <==> |backends| == 0
      ensures r == Err(NoHealthyBackends) <==>
              |backends| > 0 && forall i: nat :: i < |backends| ==> i !in up
      ensures counter == old(counter) + (if |backends| == 0 then 0 else 1)
      ensures r.Ok? ==>
              var p := Probe(|backends|, up, counter % |backends|, 0);
              0 <= p < |backends| && p in up && r.value == backends[p]
    {
      var n := |backends|;
      if n == 0 {
        return Err(NoBackends);
      }
      counter := counter + 1;
      var start := counter % n;
      for i := 0 to n
        invariant Probe(n, up, start, i) == Probe(n, up, start, 0)
        invariant forall j: nat :: j < i ==> Ahead(n, start, j) !in up
      {
        var idx := (start + i) % n;
        assert idx == Ahead(n, start, i);
        if idx in up {
          return Ok(backends[idx]);
        }
      }
      forall p: nat | p < n ensures p !in up {
        assert Ahead(n, start, if start <= p then p - start else p + n - start) == p;
      }
      return Err(NoHealthyBackends);
    }
  }

  /** The position d steps before j on a ring of n positions. */
  function Behind(n: nat, j: nat, d: nat): nat
    requires j < n && d <= n
  {
    if d <= j then j - d else j + n - d
  }

  /** d is the distance back from j to the previous healthy position (n when j is the only one). */
  ghost predicate IsGap(n: nat, up: set<nat>, j: nat, d: nat)
    requires j < n
  {
    && 1 <= d <= n
    && (forall e: nat :: 1 <= e < d ==> Behind(n, j, e) !in up)
    && (d < n ==> Behind(n, j, d) in up)
  }

  /** Whether call number x selects position j. */
  function Selects(n: nat, up: set<nat>, j: nat): nat -> bool
    requires n > 0
  {
    x => Probe(n, up, x % n, 0) == j
  }

  lemma {:induction false} ProbeSkips(n: nat, up: set<nat>, start: nat, i: nat)
    requires start < n && i < n
    requires forall k: nat :: k < i ==> Ahead(n, start, k) !in up
    requires Ahead(n, start, i) in up
    ensures Probe(n, up, start, 0) == Ahead(n, start, i)
  {
    var k: nat := i;
    while k > 0
      invariant k <= i
      invariant Probe(n, up, start, k) == Ahead(n, start, i)
    {
      k := k - 1;
    }
  }

  /** A call that starts e positions before a healthy j lands on j exactly when e is below j's gap. */
  lemma {:induction false} SelectsWithinGap(n: nat, up: set<nat>, j: nat, d: nat, e: nat)
    requires j < n && j in up && IsGap(n, up, j, d) && e < n
    ensures Probe(n, up, Behind(n, j, e), 0) == j <==> e < d
  {
    var start := Behind(n, j, e);
    assert forall k: nat :: k <= e ==> Ahead(n, start, k) == Behind(n, j, e - k);
    if e < d {
      ProbeSkips(n, up, start, e);
    } else {
      assert Ahead(n, start, e - d) in up;
      var i: nat := 0;
      while Ahead(n, start, i) !in up
        invariant i <= e - d
        invariant forall k: nat :: k < i ==> Ahead(n, start, k) !in up
        decreases e - i
      {
        i := i + 1;
      }
      ProbeSkips(n, up, start, i);
    }
  }

  /** On one lap, the calls that start fewer than d positions before j number exactly d. */
  lemma {:induction false} OneLapCount(hit: nat -> bool, n: nat, j: nat, d: nat)
    requires j < n && d <= n
    requires forall x: nat :: x <= j ==> (hit(x) <==> j - x < d)
    requires forall x: nat :: j < x < n ==> (hit(x) <==> j + n - x < d)
    ensures Count(hit, 0, n) == d
  {
    if d <= j + 1 {
      CountInterval(hit, 0, n, j + 1 - d, d);
    } else {
      CountInterval(hit, 0, j + 1, 0, j + 1);
      CountInterval(hit, j + 1, n - j - 1, j + 1 + n - d, d - j - 1);
      CountSplit(hit, 0, j + 1, n - j - 1);
    }
  }

  /** Round robin under fixed health: among any n consecutive calls, a healthy position is selected
      exactly as many times as its distance back to the previous healthy position. */
  lemma {:induction false} RoundRobinShare(n: nat, up: set<nat>, j: nat, d: nat, first: nat)
    requires j < n && j in up && IsGap(n, up, j, d)
    ensures Count(Selects(n, up, j), first, n) == d
  {
    var hit := Selects(n, up, j);
    forall x: nat ensures hit(x) == hit(x + n) {
      OneLap(n, x);
    }
    WindowIndependent(hit, n, first);
    forall e: nat | e < n ensures hit(Behind(n, j, e)) <==> e < d {
      Wraps(n, Behind(n, j, e));
      SelectsWithinGap(n, up, j, d, e);
    }
    forall x: nat | x < n ensures hit(x) <==> (if x <= j then j - x else j + n - x) < d {
      assert x == Behind(n, j, if x <= j then j - x else j + n - x);
    }
    OneLapCount(hit, n, j, d);
  }

  /** With every backend healthy each one is selected exactly once in any n consecutive calls. */
  lemma {:induction false} RoundRobinEven(n: nat, up: set<nat>, j: nat, first: nat)
    requires j < n && forall i: nat :: i < n ==> i in up
    ensures Count(Selects(n, up, j), first, n) == 1
  {
    RoundRobinShare(n, up, j, 1, first);
  }
}
