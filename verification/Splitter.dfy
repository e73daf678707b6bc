/** Traffic splitting by weight: the counter-driven SimpleSplitter and the random Splitter. */
module Splitter {
  import opened Counting
  import opened Wrappers

  datatype Error = NoTargets | InvalidWeight

  /** A pool or target: its name, its weight and the balancer behind it. */
  datatype Pool = Pool(name: string, weight: int, balancer: int)

  function WeightOf(ps: seq<Pool>): seq<int> {
    seq(|ps|, i requires 0 <= i < |ps| => ps[i].weight)
  }

  function TotalWeight(ps: seq<Pool>): int {
    Sum(WeightOf(ps))
  }

  ghost predicate NonNegative(ps: seq<Pool>) {
    forall i :: 0 <= i < |ps| ==> ps[i].weight >= 0
  }

  /** The number line of the weights: pool i owns [Start(i), Start(i + 1)). */
  function Start(ps: seq<Pool>, i: nat): int
    requires i <= |ps|
  {
    Sum(WeightOf(ps)[..i])
  }

  lemma {:induction false} StartNext(ps: seq<Pool>, i: nat)
    requires i < |ps|
    ensures Start(ps, i + 1) == Start(ps, i) + ps[i].weight
  {
    SumPrefix(WeightOf(ps), i);
  }

  lemma {:induction false} StartIsMonotone(ps: seq<Pool>, i: nat, j: nat)
    requires NonNegative(ps) && i <= j <= |ps|
    ensures 0 <= Start(ps, i) <= Start(ps, j) <= TotalWeight(ps)
  {
    var w := WeightOf(ps);
    SumPositive(w[..i]);
    SumPositive(w[i..j]);
    SumPositive(w[j..]);
    assert w[..j] == w[..i] + w[i..j] && w == w[..j] + w[j..];
    SumConcat(w[..i], w[i..j]);
    SumConcat(w[..j], w[j..]);
  }

  /** Position x falls in the segment of pool i. */
  ghost predicate Owns(ps: seq<Pool>, i: nat, x: int) {
    i < |ps| && Start(ps, i) <= x < Start(ps, i + 1)
  }

  lemma {:induction false} OwnerIsUnique(ps: seq<Pool>, i: nat, j: nat, x: int)
    requires NonNegative(ps) && Owns(ps, i, x) && Owns(ps, j, x)
    ensures i == j
  {
    if i < j {
      StartIsMonotone(ps, i + 1, j);
    } else if j < i {
      StartIsMonotone(ps, j + 1, i);
    }
  }

  /** Among the totalWeight positions, exactly weight(i) belong to pool i. */
  lemma {:induction false} SegmentSize(ps: seq<Pool>, i: nat, hit: nat -> bool)
    requires NonNegative(ps) && i < |ps|
    requires forall x: nat :: x < TotalWeight(ps) ==> (hit(x) <==> Owns(ps, i, x))
    ensures 0 <= TotalWeight(ps) && Count(hit, 0, TotalWeight(ps)) == ps[i].weight
  {
    StartIsMonotone(ps, i, i + 1);
    StartNext(ps, i);
    CountInterval(hit, 0, TotalWeight(ps), Start(ps, i), ps[i].weight);
  }

  // ------------------------------------------------------------------ SimpleSplitter

  /** The first pool whose cumulative weight exceeds position x; the last pool if none does. */
  function Walk(ps: seq<Pool>, x: int, i: nat): (k: nat)
    requires i < |ps|
    ensures k < |ps|
    decreases |ps| - i
  {
    if x < Start(ps, i + 1) || i + 1 == |ps| then i else Walk(ps, x, i + 1)
  }

  /** For a position on the line the walk stops at its owner, before the fallback. */
  lemma {:induction false} WalkFindsOwner(ps: seq<Pool>, x: int, i: nat)
    requires i < |ps| && Start(ps, i) <= x < TotalWeight(ps)
    ensures Owns(ps, Walk(ps, x, i), x)
    decreases |ps| - i
  {
    if x < Start(ps, i + 1) {
    } else {
      assert WeightOf(ps)[..|ps|] == WeightOf(ps);
      WalkFindsOwner(ps, x, i + 1);
    }
  }

  class SimpleSplitter {
    var pools: seq<Pool>
    var totalWeight: int
    var counter: nat

    ghost predicate Valid()
      reads this
    {
      totalWeight == TotalWeight(pools) && NonNegative(pools)
    }

    constructor ()
      ensures Valid() && pools == [] && counter == 0
    {
      pools, totalWeight, counter := [], 0, 0;
    }

    method AddPool(pool: Pool)
      requires Valid() && pool.weight >= 0
      modifies this
      ensures Valid() && pools == old(pools) + [pool] && counter == old(counter)
    {
      pools := pools + [pool];
      totalWeight := totalWeight + pool.weight;
      assert WeightOf(pools) == WeightOf(old(pools)) + [pool.weight];
      SumAppend(WeightOf(old(pools)), pool.weight);
    }

    /** Refuses exactly when the weights sum to zero; otherwise routes to the pool that owns the
        new counter value modulo the total. */
    method Route() returns (r: Option<Pool>)
      requires Valid()
      modifies this`counter
      ensures r.None? <==> totalWeight == 0
      ensures counter == old(counter) + (if r.None? then 0 else 1)
      ensures r.Some? ==>
                && totalWeight > 0 && pools != []
                && r.value == pools[Walk(pools, counter % totalWeight, 0)]
                && Owns(pools, Walk(pools, counter % totalWeight, 0), counter % totalWeight)
    {
      if |pools| == 0 || totalWeight == 0 {
        return None;
      }
      SumPositive(WeightOf(pools));
      counter := counter + 1;
      var position := counter % totalWeight;
      assert WeightOf(pools)[..|pools|] == WeightOf(pools);
      assert Start(pools, 0) == 0;
      WalkFindsOwner(pools, position, 0);
      var cumulative := 0;
      for i := 0 to |pools|
        invariant counter == old(counter) + 1
        invariant cumulative == Start(pools, i) <= position
        invariant i < |pools| ==> Walk(pools, position, i) == Walk(pools, position, 0)
      {
        StartNext(pools, i);
        cumulative := cumulative + pools[i].weight;
        if position < cumulative {
          return Some(pools[i]);
        }
      }
      assert false;
    }
  }

  /** Whether call number x routes to pool i. */
  function RoutesTo(ps: seq<Pool>, i: nat): nat -> bool
    requires ps != [] && TotalWeight(ps) > 0
  {
    x => Walk(ps, x % TotalWeight(ps), 0) == i
  }

  /** Any totalWeight consecutive calls route to pool i exactly weight(i) times. */
  lemma {:induction false} RouteIsExact(ps: seq<Pool>, i: nat, first: nat)
    requires NonNegative(ps) && TotalWeight(ps) > 0 && i < |ps|
    ensures Count(RoutesTo(ps, i), first, TotalWeight(ps)) == ps[i].weight
  {
    var n, hit := TotalWeight(ps), RoutesTo(ps, i);
    forall x: nat ensures hit(x) == hit(x + n) {
      OneLap(n, x);
    }
    WindowIndependent(hit, n, first);
    assert Start(ps, 0) == 0;
    forall x: nat | x < n ensures hit(x) <==> Owns(ps, i, x) {
      WalkFindsOwner(ps, x, 0);
      if Owns(ps, i, x) {
        OwnerIsUnique(ps, i, Walk(ps, x, 0), x);
      }
      ModUnique(x, n, 0, x);
    }
    SegmentSize(ps, i, hit);
  }

  // ------------------------------------------------------------------ Splitter

  function Names(ts: seq<Pool>): set<string> {
    set i | 0 <= i < |ts| :: ts[i].name
  }

  ghost predicate Acceptable(ts: seq<Pool>) {
    ts != [] && forall i :: 0 <= i < |ts| ==> ts[i].weight > 0
  }

  /** Checks a list of targets and sums their weights: the loop of NewSplitter and UpdateTargets. */
  method CheckTargets(ts: seq<Pool>) returns (r: Result<int, Error>)
    ensures r.Ok? <==> Acceptable(ts)
    ensures r.Ok? ==> r.value == TotalWeight(ts)
    ensures r == Err(NoTargets) <==> ts == []
  {
    if |ts| == 0 {
      return Err(NoTargets);
    }
    var total := 0;
    for i := 0 to |ts|
      invariant total == Start(ts, i)
      invariant forall j :: 0 <= j < i ==> ts[j].weight > 0
    {
      if ts[i].weight <= 0 {
        return Err(InvalidWeight);
      }
      StartNext(ts, i);
      total := total + ts[i].weight;
    }
    assert WeightOf(ts)[..|ts|] == WeightOf(ts);
    return Ok(total);
  }

  /** The target a draw r in [0, totalWeight) selects. */
  function Drawn(ts: seq<Pool>, r: nat): nat
    requires ts != []
  {
    if |ts| == 1 then 0 else Walk(ts, r, 0)
  }

  class WeightedSplitter {
    var targets: seq<Pool>
    var totalWeight: int
    var selections: map<string, nat>

    ghost predicate Valid()
      reads this
    {
      && Acceptable(targets) && totalWeight == TotalWeight(targets)
      && selections.Keys == Names(targets)
    }

    constructor (ts: seq<Pool>)
      requires Acceptable(ts)
      ensures Valid() && targets == ts
      ensures forall n :: n in selections ==> selections[n] == 0
    {
      targets, totalWeight := ts, TotalWeight(ts);
      selections := map n | n in Names(ts) :: 0;
    }

    method UpdateTargets(ts: seq<Pool>) returns (error: Option<Error>)
      requires Valid()
      modifies this
      ensures Valid()
      ensures error.None? <==> Acceptable(ts)
      ensures error.None? ==> targets == ts && forall n :: n in selections ==> selections[n] == 0
      ensures error.Some? ==> unchanged(this)
    {
      var r := CheckTargets(ts);
      if r.Err? {
        return Some(r.error);
      }
      targets, totalWeight := ts, r.value;
      selections := map n | n in Names(ts) :: 0;
      return None;
    }

    /** draw is the value of rand.Intn(totalWeight), read only when there are two targets or more. */
    method Select(draw: nat) returns (t: Pool)
      requires Valid() && draw < totalWeight
      modifies this`selections
      ensures Valid()
      ensures t == targets[Drawn(targets, draw)]
      ensures selections == old(selections)[t.name := old(selections)[t.name] + 1]
    {
      if |targets| == 1 {
        t := targets[0];
      } else {
        var r := draw;
        assert Start(targets, 0) == 0;
        assert WeightOf(targets)[..|targets|] == WeightOf(targets);
        var i := 0;
        while true
          invariant i < |targets| && selections == old(selections)
          invariant r == draw - Start(targets, i)
          invariant Walk(targets, draw, i) == Walk(targets, draw, 0)
          decreases |targets| - i
        {
          StartNext(targets, i);
          r := r - targets[i].weight;
          if r < 0 {
            break;
          }
          i := i + 1;
        }
        t := targets[i];
      }
      assert t.name in Names(targets);
      selections := selections[t.name := selections[t.name] + 1];
    }
  }

  /** NewSplitter: a splitter over acceptable targets, or the error that CheckTargets gives. */
  method NewSplitter(ts: seq<Pool>) returns (r: Result<WeightedSplitter, Error>)
    ensures r.Ok? <==> Acceptable(ts)
    ensures r == Err(NoTargets) <==> ts == []
    ensures r.Ok? ==> fresh(r.value) && r.value.Valid() && r.value.targets == ts
    ensures r.Ok? ==> forall n :: n in r.value.selections ==> r.value.selections[n] == 0
  {
    var checked := CheckTargets(ts);
    if checked.Err? {
      return Err(checked.error);
    }
    var s := new WeightedSplitter(ts);
    return Ok(s);
  }

  function DrawsTo(ts: seq<Pool>, i: nat): nat -> bool
    requires ts != []
  {
    (r: nat) => Drawn(ts, r) == i
  }

  /** Exactly weight(i) of the totalWeight possible draws select target i. */
  lemma {:induction false} DrawsAreExact(ts: seq<Pool>, i: nat)
    requires Acceptable(ts) && i < |ts|
    ensures 0 <= TotalWeight(ts) && Count(DrawsTo(ts, i), 0, TotalWeight(ts)) == ts[i].weight
  {
    var hit := DrawsTo(ts, i);
    assert Start(ts, 0) == 0;
    forall x: nat | x < TotalWeight(ts) ensures hit(x) <==> Owns(ts, i, x) {
      WalkFindsOwner(ts, x, 0);
      if Owns(ts, i, x) {
        OwnerIsUnique(ts, i, Walk(ts, x, 0), x);
      }
    }
    SegmentSize(ts, i, hit);
  }
}
