/** How far smooth weighted round robin lets the running weights drift when health changes from call to
    call: no subset of k of the N backends ever holds more than W * k * (N - k). */
module WeightRange {
  import opened Counting
  import opened SmoothWeighted
  import opened LoadBalancer

  ghost predicate NoneNegative(w: seq<int>) {
    forall i :: 0 <= i < |w| ==> w[i] >= 0
  }

  /** The sum of c over a subset of the backends. */
  function Part(c: seq<int>, mask: seq<bool>): int
    requires |c| == |mask|
  {
    Sum(Gain(c, mask))
  }

  function Ones(n: nat): seq<int> {
    seq(n, _ => 1)
  }

  function Size(mask: seq<bool>): int {
    Part(Ones(|mask|), mask)
  }

  /** No k of n backends may hold more than this, when the weights sum to total. */
  function Cap(total: int, k: int, n: int): int {
    total * (k * (n - k))
  }

  /** A subset stays below its cap. */
  ghost predicate Below(c: seq<int>, total: int, mask: seq<bool>) {
    |mask| == |c| ==> Part(c, mask) <= Cap(total, Size(mask), |c|)
  }

  /** The running weights sum to zero and no subset of them exceeds its cap. */
  ghost predicate Even(c: seq<int>, total: int) {
    Sum(c) == 0 && forall mask: seq<bool> :: Below(c, total, mask)
  }

  lemma {:induction false} PartPut(c: seq<int>, mask: seq<bool>, i: nat, b: bool)
    requires i < |c| == |mask|
    ensures Part(c, mask[i := b]) == Part(c, mask) - (if mask[i] then c[i] else 0) + (if b then c[i] else 0)
  {
    SumUpdate(Gain(c, mask), i, if b then c[i] else 0);
    assert Gain(c, mask[i := b]) == Gain(c, mask)[i := if b then c[i] else 0];
  }

  lemma {:induction false} SizePut(mask: seq<bool>, i: nat, b: bool)
    requires i < |mask|
    ensures Size(mask[i := b]) == Size(mask) - (if mask[i] then 1 else 0) + (if b then 1 else 0)
  {
    PartPut(Ones(|mask|), mask, i, b);
  }

  lemma {:induction false} PartIsMonotone(w: seq<int>, small: seq<bool>, large: seq<bool>)
    requires |w| == |small| == |large| && NoneNegative(w)
    requires forall i :: 0 <= i < |w| && small[i] ==> large[i]
    ensures Part(w, small) <= Part(w, large)
  {
    var rest := seq(|w|, i requires 0 <= i < |w| => if large[i] && !small[i] then w[i] else 0);
    SumPointwise(Gain(w, small), rest, Gain(w, large));
    SumPositive(rest);
  }

  function Both(a: seq<bool>, b: seq<bool>): seq<bool>
    requires |a| == |b|
  {
    seq(|a|, i requires 0 <= i < |a| => a[i] && b[i])
  }

  lemma {:induction false} SizeRange(mask: seq<bool>)
    ensures 0 <= Size(mask) <= |mask|
  {
    SumAtLeast(Gain(Ones(|mask|), mask), 0);
    SumAtMost(Gain(Ones(|mask|), mask), 1);
  }

  /** What a call does to a subset: its healthy members gain, and the leader pays if it is one. */
  lemma {:induction false} PartAdvance(c: seq<int>, w: seq<int>, up: seq<bool>, mask: seq<bool>)
    requires Sized(c, w, up) && |mask| == |c| && !NoneUp(up)
    ensures var p := Leader(c, w, up);
      && 0 <= p < |c| && up[p]
      && Part(Advance(c, w, up), mask)
         == Part(c, mask) + Part(w, Both(mask, up)) - (if mask[p] then Total(w, up) else 0)
  {
    AdvanceStep(c, w, up);
    var p, credit := Leader(c, w, up), Credit(c, w, up);
    SumPointwise(Gain(c, mask), Gain(w, Both(mask, up)), Gain(credit, mask));
    var paid := if mask[p] then credit[p] - Total(w, up) else 0;
    SumUpdate(Gain(credit, mask), p, paid);
    assert Gain(Advance(c, w, up), mask) == Gain(credit, mask)[p := paid];
  }

  lemma {:induction false} CapNeighbours(total: int, k: int, n: int)
    ensures Cap(total, k + 1, n) + Cap(total, k - 1, n) == 2 * Cap(total, k, n) - 2 * total
  {
    var x, y, z := (k + 1) * (n - (k + 1)), (k - 1) * (n - (k - 1)), k * (n - k);
    assert x + y == 2 * z - 2;
    assert total * x + total * y == total * (x + y);
    assert total * (2 * z - 2) == 2 * (total * z) - 2 * total;
  }

  /** The exchange: a subset without the leader p but with a healthy member j is well below its cap. */
  lemma {:induction false} Exchange(c: seq<int>, w: seq<int>, up: seq<bool>, mask: seq<bool>, p: nat, j: nat,
                                    total: int)
    requires Sized(c, w, up) && |mask| == |c| && Even(c, total)
    requires p < |c| && j < |c| && !mask[p] && mask[j] && c[j] + w[j] <= c[p] + w[p]
    ensures 2 * Part(c, mask) <= 2 * Cap(total, Size(mask), |c|) - 2 * total + w[p] - w[j]
  {
    PartPut(c, mask, p, true);
    SizePut(mask, p, true);
    PartPut(c, mask, j, false);
    SizePut(mask, j, false);
    CapNeighbours(total, Size(mask), |c|);
    assert Below(c, total, mask[p := true]) && Below(c, total, mask[j := false]);
  }

  /** What the healthy members of a subset without the leader gain, together with the leader's own weight,
      is at most the sum of all weights. */
  lemma {:induction false} GainFits(w: seq<int>, up: seq<bool>, mask: seq<bool>, p: nat)
    requires |w| == |up| == |mask| && NoneNegative(w) && p < |w| && up[p] && !mask[p]
    ensures Part(w, Both(mask, up)) + w[p] <= Total(w, up) <= Sum(w)
  {
    var both := Both(mask, up);
    PartPut(w, both, p, true);
    PartIsMonotone(w, both[p := true], up);
    var all := seq(|w|, _ => true);
    PartIsMonotone(w, up, all);
    assert Gain(w, all) == w;
  }

  lemma {:induction false} SubsetStaysBelow(c: seq<int>, w: seq<int>, up: seq<bool>, mask: seq<bool>)
    requires Sized(c, w, up) && NoneNegative(w) && !NoneUp(up) && |mask| == |c| && Even(c, Sum(w))
    ensures Part(Advance(c, w, up), mask) <= Cap(Sum(w), Size(mask), |c|)
  {
    var p, both := Leader(c, w, up), Both(mask, up);
    PartAdvance(c, w, up, mask);
    assert Below(c, Sum(w), mask);
    if mask[p] {
      PartIsMonotone(w, both, up);
    } else if j :| 0 <= j < |c| && both[j] {
      AdvanceStep(c, w, up);
      assert Credit(c, w, up)[j] <= Credit(c, w, up)[p];
      Exchange(c, w, up, mask, p, j, Sum(w));
      GainFits(w, up, mask, p);
    } else {
      SumAtMost(Gain(w, both), 0);
    }
  }

  /** A call keeps the running weights even, whatever the health flags it reads. */
  lemma {:induction false} CallKeepsEven(c: seq<int>, w: seq<int>, up: seq<bool>)
    requires Sized(c, w, up) && NoneNegative(w) && Even(c, Sum(w))
    ensures Even(Advance(c, w, up), Sum(w))
  {
    AdvanceKeepsSum(c, w, up);
    if NoneUp(up) {
      ScanFindsLeader(Credit(c, w, up), up, |c|);
    } else {
      forall mask: seq<bool> ensures Below(Advance(c, w, up), Sum(w), mask) {
        if |mask| == |c| {
          SubsetStaysBelow(c, w, up, mask);
        }
      }
    }
  }

  lemma {:induction false} CapGrows(total: int, more: int, k: int, n: int)
    requires 0 <= total <= more && 0 <= k <= n
    ensures 0 <= Cap(total, k, n) <= Cap(more, k, n + 1)
    ensures Cap(total, k, n) <= Cap(more, k + 1, n + 1)
  {
    var x, y, z := k * (n - k), k * (n + 1 - k), (k + 1) * (n - k);
    assert 0 <= x <= y && x <= z;
    assert 0 <= total * x <= more * y;
    assert total * x <= more * z;
  }

  /** A subset of the longer sequence, by its part in the shorter one. */
  lemma {:induction false} PartOfLonger(c: seq<int>, x: int, most: seq<bool>, last: bool)
    requires |most| == |c|
    ensures Part(c + [x], most + [last]) == Part(c, most) + (if last then x else 0)
  {
    assert Gain(c + [x], most + [last]) == Gain(c, most) + [if last then x else 0];
    SumAppend(Gain(c, most), if last then x else 0);
  }

  lemma {:induction false} SizeOfLonger(most: seq<bool>, last: bool)
    ensures Size(most + [last]) == Size(most) + (if last then 1 else 0)
  {
    assert Ones(|most + [last]|) == Ones(|most|) + [1];
    PartOfLonger(Ones(|most|), 1, most, last);
  }

  lemma {:induction false} LongerStaysBelow(c: seq<int>, total: int, weight: int, most: seq<bool>, last: bool)
    requires Even(c, total) && total >= 0 && weight >= 0 && |most| == |c|
    ensures Part(c + [0], most + [last]) <= Cap(total + weight, Size(most + [last]), |c| + 1)
  {
    PartOfLonger(c, 0, most, last);
    SizeOfLonger(most, last);
    SizeRange(most);
    CapGrows(total, total + weight, Size(most), |c|);
    assert Below(c, total, most);
  }

  /** Adding a backend keeps them even as well. */
  lemma {:induction false} AddKeepsEven(c: seq<int>, total: int, weight: int)
    requires Even(c, total) && total >= 0 && weight >= 0
    ensures Even(c + [0], total + weight)
  {
    SumAppend(c, 0);
    var longer, more := c + [0], total + weight;
    forall mask: seq<bool> ensures Below(longer, more, mask) {
      if |mask| == |c| + 1 {
        assert mask == mask[..|c|] + [mask[|c|]];
        LongerStaysBelow(c, total, weight, mask[..|c|], mask[|c|]);
      }
    }
  }

  lemma {:induction false} ZerosAreEven(c: seq<int>, total: int)
    requires total >= 0 && forall i :: 0 <= i < |c| ==> c[i] == 0
    ensures Even(c, total)
  {
    SumAtMost(c, 0);
    SumAtLeast(c, 0);
    forall mask: seq<bool> ensures Below(c, total, mask) {
      if |mask| == |c| {
        SumAtMost(Gain(c, mask), 0);
        SizeRange(mask);
        CapIsNonNegative(total, Size(mask), |c|);
      }
    }
  }

  lemma {:induction false} CapIsNonNegative(total: int, k: int, n: int)
    requires total >= 0 && 0 <= k <= n
    ensures Cap(total, k, n) >= 0
  {
    assert k * (n - k) >= 0;
  }

  lemma {:induction false} OneAlone(c: seq<int>, i: nat) returns (mask: seq<bool>)
    requires i < |c|
    ensures |mask| == |c| && Part(c, mask) == c[i] && Size(mask) == 1
  {
    var none := seq(|c|, _ => false);
    SumAtMost(Gain(c, none), 0);
    SumAtLeast(Gain(c, none), 0);
    SumAtMost(Gain(Ones(|c|), none), 0);
    SumAtLeast(Gain(Ones(|c|), none), 0);
    PartPut(c, none, i, true);
    SizePut(none, i, true);
    mask := none[i := true];
  }

  lemma {:induction false} AllButOne(c: seq<int>, i: nat) returns (mask: seq<bool>)
    requires i < |c|
    ensures |mask| == |c| && Part(c, mask) == Sum(c) - c[i] && Size(mask) == |c| - 1
  {
    var all := seq(|c|, _ => true);
    assert Gain(c, all) == c && Gain(Ones(|c|), all) == Ones(|c|);
    SumAtMost(Ones(|c|), 1);
    SumAtLeast(Ones(|c|), 1);
    PartPut(c, all, i, false);
    SizePut(all, i, false);
    mask := all[i := false];
  }

  /** So every running weight stays within (N - 1) * W of zero. */
  lemma {:induction false} EvenIsBounded(c: seq<int>, total: int, i: nat)
    requires Even(c, total) && i < |c|
    ensures -((|c| - 1) * total) <= c[i] <= (|c| - 1) * total
  {
    var one := OneAlone(c, i);
    var others := AllButOne(c, i);
    assert Below(c, total, one) && Below(c, total, others);
  }

  // ---------------------------------------------------------------- whole runs

  /** The weights of all backends that an operation brings. */
  function Brought(op: Op): seq<Backend> {
    match op
    case Add(b) => [b]
    case Update(bs) => bs
    case _ => []
  }

  ghost predicate Weighty(bs: seq<Backend>) {
    forall i :: 0 <= i < |bs| ==> bs[i].weight >= 0
  }

  /** A table whose weights are not negative and whose running weights are even. */
  ghost predicate EvenTable(t: Table) {
    NoneNegative(Weights(t)) && Even(Currents(t), Sum(Weights(t)))
  }

  lemma {:induction false} WrapIsEven(bs: seq<Backend>)
    requires Weighty(bs)
    ensures EvenTable(Wrap(bs))
  {
    SumPositive(Weights(Wrap(bs)));
    ZerosAreEven(Currents(Wrap(bs)), Sum(Weights(Wrap(bs))));
  }

  lemma {:induction false} NextKeepsEven(t: Table, up: set<nat>)
    requires EvenTable(t)
    ensures EvenTable(AfterNext(t, up))
  {
    CallKeepsEven(Currents(t), Weights(t), Flags(|t|, up));
  }

  lemma {:induction false} AddBackendKeepsEven(t: Table, b: Backend)
    requires EvenTable(t) && b.weight >= 0
    ensures EvenTable(t + Wrap([b]))
  {
    var c, w := Currents(t), Weights(t);
    SumPositive(w);
    AddKeepsEven(c, Sum(w), b.weight);
    SumAppend(w, b.weight);
    assert Currents(t + Wrap([b])) == c + [0] && Weights(t + Wrap([b])) == w + [b.weight];
  }

  lemma {:induction false} ApplyKeepsEven(t: Table, op: Op)
    requires !op.Remove? && Weighty(Brought(op)) && EvenTable(t)
    ensures EvenTable(Apply(t, op))
  {
    match op
    case Next(up) => NextKeepsEven(t, up);
    case Add(b) =>
      assert b == Brought(op)[0];
      AddBackendKeepsEven(t, b);
    case Update(bs) => WrapIsEven(bs);
  }

  lemma {:induction false} RunIsEven(bs: seq<Backend>, ops: seq<Op>)
    requires Weighty(bs) && forall i :: 0 <= i < |ops| ==> !ops[i].Remove? && Weighty(Brought(ops[i]))
    ensures EvenTable(Run(bs, ops))
  {
    if ops == [] {
      WrapIsEven(bs);
    } else {
      RunIsEven(bs, ops[..|ops| - 1]);
      ApplyKeepsEven(Run(bs, ops[..|ops| - 1]), ops[|ops| - 1]);
    }
  }

  /** However health flips from call to call, and with any additions and updates in between, no running
      weight of N backends of total weight W ever leaves [-(N - 1) * W, (N - 1) * W]. */
  lemma {:induction false} RunWeightRange(bs: seq<Backend>, ops: seq<Op>, i: nat)
    requires Weighty(bs) && forall i :: 0 <= i < |ops| ==> !ops[i].Remove? && Weighty(Brought(ops[i]))
    requires i < |Run(bs, ops)|
    ensures var t := Run(bs, ops);
      -((|t| - 1) * Sum(Weights(t))) <= t[i].currentWeight <= (|t| - 1) * Sum(Weights(t))
  {
    RunIsEven(bs, ops);
    var t := Run(bs, ops);
    EvenIsBounded(Currents(t), Sum(Weights(t)), i);
  }
}
