/** The arithmetic of smooth weighted round robin, over the running weights alone.

    A call is described by three sequences of the same length, one entry per backend: the running
    weights c, the configured weights w, and up, the health flag read for each backend in that call. */
module SmoothWeighted {
  import opened Counting

  ghost predicate Sized(c: seq<int>, w: seq<int>, up: seq<bool>) {
    |c| == |w| == |up|
  }

  ghost predicate AllPositive(w: seq<int>) {
    forall i :: 0 <= i < |w| ==> w[i] >= 1
  }

  /** What a call adds to each running weight: nothing for a backend that is down. */
  function Gain(w: seq<int>, up: seq<bool>): seq<int>
    requires |w| == |up|
  {
    seq(|w|, i requires 0 <= i < |w| => if up[i] then w[i] else 0)
  }

  function Total(w: seq<int>, up: seq<bool>): int
    requires |w| == |up|
  {
    Sum(Gain(w, up))
  }

  function Credit(c: seq<int>, w: seq<int>, up: seq<bool>): seq<int>
    requires Sized(c, w, up)
  {
    seq(|c|, i requires 0 <= i < |c| => c[i] + Gain(w, up)[i])
  }

  /** The left-to-right scan for the largest value among the first n backends that are up. */
  function Scan(c: seq<int>, up: seq<bool>, n: nat): int
    requires n <= |c| == |up|
  {
    if n == 0 then -1
    else
      var p := Scan(c, up, n - 1);
      if up[n - 1] && (!(0 <= p < n - 1) || c[n - 1] > c[p]) then n - 1 else p
  }

  function Leader(c: seq<int>, w: seq<int>, up: seq<bool>): int
    requires Sized(c, w, up)
  {
    Scan(Credit(c, w, up), up, |c|)
  }

  /** p is up, no backend that is up has more, and every earlier one that is up has less. */
  ghost predicate IsLeader(c: seq<int>, up: seq<bool>, n: nat, p: int)
    requires n <= |c| == |up|
  {
    && 0 <= p < n && up[p]
    && (forall i :: 0 <= i < n && up[i] ==> c[i] <= c[p])
    && (forall i :: 0 <= i < p && up[i] ==> c[i] < c[p])
  }

  ghost predicate NoneUp(up: seq<bool>) {
    forall i :: 0 <= i < |up| ==> !up[i]
  }

  lemma {:induction false} ScanFindsLeader(c: seq<int>, up: seq<bool>, n: nat)
    requires n <= |c| == |up|
    ensures (forall i :: 0 <= i < n ==> !up[i]) ==> Scan(c, up, n) == -1
    ensures (exists i :: 0 <= i < n && up[i]) ==> IsLeader(c, up, n, Scan(c, up, n))
  {
    if n == 0 {
    } else {
      ScanFindsLeader(c, up, n - 1);
    }
  }

  lemma {:induction false} LeaderIsUnique(c: seq<int>, w: seq<int>, up: seq<bool>, p: int)
    requires Sized(c, w, up)
    ensures IsLeader(Credit(c, w, up), up, |c|, p) <==> (p == Leader(c, w, up) && p >= 0)
  {
    ScanFindsLeader(Credit(c, w, up), up, |c|);
  }

  /** The running weights after one call. When nothing is up they do not move. */
  function Advance(c: seq<int>, w: seq<int>, up: seq<bool>): (r: seq<int>)
    requires Sized(c, w, up)
    ensures |r| == |c|
  {
    var p := Leader(c, w, up);
    if 0 <= p < |c| then Credit(c, w, up)[p := Credit(c, w, up)[p] - Total(w, up)] else c
  }

  /** A call that finds nothing up moves no weight. */
  lemma {:induction false} NothingUpNothingMoves(c: seq<int>, w: seq<int>, up: seq<bool>)
    requires Sized(c, w, up) && NoneUp(up)
    ensures Advance(c, w, up) == c
  {
    ScanFindsLeader(Credit(c, w, up), up, |c|);
  }

  /** Conservation: whatever is up, a call does not change the sum of the running weights. */
  lemma {:induction false} AdvanceKeepsSum(c: seq<int>, w: seq<int>, up: seq<bool>)
    requires Sized(c, w, up)
    ensures Sum(Advance(c, w, up)) == Sum(c)
  {
    var p := Leader(c, w, up);
    if 0 <= p < |c| {
      SumPointwise(c, Gain(w, up), Credit(c, w, up));
      SumUpdate(Credit(c, w, up), p, Credit(c, w, up)[p] - Total(w, up));
    }
  }

  // ---------------------------------------------------------------- fixed health

  /** The running weights of the backends that are up, with the others read as zero. */
  function Masked(c: seq<int>, up: seq<bool>): seq<int>
    requires |c| == |up|
  {
    Gain(c, up)
  }

  function After(c: seq<int>, w: seq<int>, up: seq<bool>, t: nat): (r: seq<int>)
    requires Sized(c, w, up)
    ensures |r| == |c|
  {
    if t == 0 then c else Advance(After(c, w, up, t - 1), w, up)
  }

  /** The backend that call number t (counting from 0) selects. */
  function PickAt(c: seq<int>, w: seq<int>, up: seq<bool>, t: nat): int
    requires Sized(c, w, up)
  {
    Leader(After(c, w, up, t), w, up)
  }

  function Picks(c: seq<int>, w: seq<int>, up: seq<bool>, t: nat, i: int): nat
    requires Sized(c, w, up)
  {
    if t == 0 then 0 else Picks(c, w, up, t - 1, i) + (if PickAt(c, w, up, t - 1) == i then 1 else 0)
  }

  /** Whether call number x selects backend i. */
  function PickedAt(c: seq<int>, w: seq<int>, up: seq<bool>, i: int): nat -> bool
    requires Sized(c, w, up)
  {
    (x: nat) => PickAt(c, w, up, x) == i
  }

  lemma {:induction false} PicksIsCount(c: seq<int>, w: seq<int>, up: seq<bool>, t: nat, i: int)
    requires Sized(c, w, up)
    ensures Picks(c, w, up, t, i) == Count(PickedAt(c, w, up, i), 0, t)
  {
    if t == 0 {
    } else {
      PicksIsCount(c, w, up, t - 1, i);
    }
  }

  /** A state in which a cycle can begin: weights are positive, something is up, and every
      backend that is up has a running weight of zero. */
  ghost predicate Fresh(c: seq<int>, w: seq<int>, up: seq<bool>) {
    && Sized(c, w, up) && AllPositive(w) && !NoneUp(up)
    && (forall i :: 0 <= i < |c| && up[i] ==> c[i] == 0)
  }

  lemma {:induction false} TotalPositive(w: seq<int>, up: seq<bool>)
    requires |w| == |up| && AllPositive(w) && !NoneUp(up)
    ensures Total(w, up) >= 1
  {
    SumPositive(Gain(w, up));
    var i :| 0 <= i < |up| && up[i];
    assert Gain(w, up)[i] >= 1;
  }

  /** What one call does when something is up: the leader exists, and only it pays the total. */
  lemma {:induction false} AdvanceStep(c: seq<int>, w: seq<int>, up: seq<bool>)
    requires Sized(c, w, up) && !NoneUp(up)
    ensures var p := Leader(c, w, up);
      && IsLeader(Credit(c, w, up), up, |c|, p)
      && (forall i :: 0 <= i < |c| ==>
            Advance(c, w, up)[i] == c[i] + Gain(w, up)[i] - (if i == p then Total(w, up) else 0))
  {
    ScanFindsLeader(Credit(c, w, up), up, |c|);
  }

  lemma {:induction false} MaskedStep(c: seq<int>, w: seq<int>, up: seq<bool>)
    requires Sized(c, w, up) && !NoneUp(up)
    ensures Sum(Masked(Advance(c, w, up), up)) == Sum(Masked(c, up))
  {
    AdvanceStep(c, w, up);
    var p := Leader(c, w, up);
    var credit := Masked(Credit(c, w, up), up);
    SumPointwise(Masked(c, up), Gain(w, up), credit);
    assert Masked(Advance(c, w, up), up) == credit[p := credit[p] - Total(w, up)];
    SumUpdate(credit, p, credit[p] - Total(w, up));
  }

  /** The leader's credited weight is positive whenever the weights that are up sum to zero. */
  lemma {:induction false} LeaderHoldsCredit(c: seq<int>, w: seq<int>, up: seq<bool>)
    requires Sized(c, w, up) && AllPositive(w) && !NoneUp(up)
    requires Sum(Masked(c, up)) == 0
    ensures 0 <= Leader(c, w, up) < |c| && Credit(c, w, up)[Leader(c, w, up)] >= 1
  {
    AdvanceStep(c, w, up);
    TotalPositive(w, up);
    var credit := Masked(Credit(c, w, up), up);
    SumPointwise(Masked(c, up), Gain(w, up), credit);
    if Credit(c, w, up)[Leader(c, w, up)] <= 0 {
      SumAtMost(credit, 0);
      assert false;
    }
  }

  /** The weights that are up sum to zero, and each is above -W. */
  ghost predicate Bounded(c: seq<int>, w: seq<int>, up: seq<bool>)
    requires Sized(c, w, up)
  {
    && Sum(Masked(c, up)) == 0
    && (forall i :: 0 <= i < |c| && up[i] ==> c[i] >= 1 - Total(w, up))
  }

  lemma {:induction false} CallKeepsBounds(c: seq<int>, w: seq<int>, up: seq<bool>)
    requires Sized(c, w, up) && AllPositive(w) && !NoneUp(up) && Bounded(c, w, up)
    ensures Bounded(Advance(c, w, up), w, up)
    ensures 0 <= Leader(c, w, up) < |c| && up[Leader(c, w, up)]
    ensures forall i :: 0 <= i < |c| && !up[i] ==> Advance(c, w, up)[i] == c[i]
  {
    AdvanceStep(c, w, up);
    MaskedStep(c, w, up);
    LeaderHoldsCredit(c, w, up);
  }

  /** Every reachable state: the weights that are up sum to zero and each stays above -W, and a
      backend that is down keeps its weight and is never selected. */
  lemma {:induction false} RunBounds(c: seq<int>, w: seq<int>, up: seq<bool>, t: nat)
    requires Fresh(c, w, up)
    ensures var a := After(c, w, up, t);
      && Bounded(a, w, up)
      && (forall i :: 0 <= i < |c| && !up[i] ==> a[i] == c[i] && Picks(c, w, up, t, i) == 0)
  {
    TotalPositive(w, up);
    if t == 0 {
      SumAtMost(Masked(c, up), 0);
      SumAtLeast(Masked(c, up), 0);
    } else {
      RunBounds(c, w, up, t - 1);
      CallKeepsBounds(After(c, w, up, t - 1), w, up);
    }
  }

  lemma Distribute(x: int, y: int)
    ensures x * (y + 1) == x * y + x
    ensures (y + 1) * x == y * x + x
  {
  }

  lemma {:induction false} Posting(start: int, left: int, t: int, share: int, total: int, n: int, paid: bool)
    requires left == start + (t - 1) * share - total * n
    ensures left + share - (if paid then total else 0) == start + t * share - total * (n + if paid then 1 else 0)
  {
    Distribute(share, t - 1);
    Distribute(total, n);
  }

  lemma {:induction false} LedgerStep(c: seq<int>, w: seq<int>, up: seq<bool>, i: nat)
    requires Sized(c, w, up) && i < |c| && up[i]
    ensures Advance(c, w, up)[i] == c[i] + w[i] - (if Leader(c, w, up) == i then Total(w, up) else 0)
  {
    AdvanceStep(c, w, up);
    assert Gain(w, up)[i] == w[i];
  }

  /** The ledger of one backend: its running weight is what it was given minus what it paid. */
  lemma {:induction false} Ledger(c: seq<int>, w: seq<int>, up: seq<bool>, t: nat, i: nat)
    requires Sized(c, w, up) && i < |c| && up[i]
    ensures After(c, w, up, t)[i] == c[i] + t * w[i] - Total(w, up) * Picks(c, w, up, t, i)
  {
    if t == 0 {
    } else {
      Ledger(c, w, up, t - 1, i);
      var b, n := After(c, w, up, t - 1), Picks(c, w, up, t - 1, i);
      LedgerStep(b, w, up, i);
      Posting(c[i], b[i], t, w[i], Total(w, up), n, PickAt(c, w, up, t - 1) == i);
    }
  }

  /** Range of the running weights, for every call number: [1 - W, (N - 1)(W - 1)]. */
  lemma {:induction false} RunningWeightRange(c: seq<int>, w: seq<int>, up: seq<bool>, t: nat, i: nat)
    requires Fresh(c, w, up) && i < |c| && up[i]
    ensures 1 - Total(w, up) <= After(c, w, up, t)[i] <= (|c| - 1) * (Total(w, up) - 1)
  {
    RunBounds(c, w, up, t);
    TotalPositive(w, up);
    var a := Masked(After(c, w, up, t), up);
    var others := a[..i] + a[i + 1..];
    SumRemove(a, i);
    SumAtLeast(others, 1 - Total(w, up));
    assert (|c| - 1) * (1 - Total(w, up)) == -((|c| - 1) * (Total(w, up) - 1));
  }

  /** Quota: at every call number t a backend is ahead of its share t * w / W by less than one
      selection, and behind it by at most (N - 1)(W - 1) / W. */
  lemma {:induction false} Quota(c: seq<int>, w: seq<int>, up: seq<bool>, t: nat, i: nat)
    requires Fresh(c, w, up) && i < |c| && up[i]
    ensures Total(w, up) * (Picks(c, w, up, t, i) - 1) < t * w[i]
    ensures t * w[i] <= Total(w, up) * Picks(c, w, up, t, i) + (|c| - 1) * (Total(w, up) - 1)
  {
    Ledger(c, w, up, t, i);
    RunningWeightRange(c, w, up, t, i);
    Distribute(Total(w, up), Picks(c, w, up, t, i) - 1);
  }

  /** A debt above -W that is a multiple of W is not a debt at all. */
  lemma {:induction false} Quotients(total: int, share: int, n: int, k: int, t: int, left: int)
    requires total >= 1 && t == k * total
    requires left == t * share - total * n && left >= 1 - total
    ensures left >= 0
    ensures left == 0 ==> n == k * share
  {
    var x := k * share - n;
    assert t * share == total * (k * share);
    assert left == total * x;
    assert x < 0 ==> total * x <= -total;
    assert x > 0 ==> total * x >= total;
  }

  /** Exact proportionality: after t = k * W calls every backend that is up has been selected
      exactly k * w times, every other one never, and all running weights are back where they began. */
  lemma {:induction false} CycleIsExact(c: seq<int>, w: seq<int>, up: seq<bool>, k: nat, t: nat)
    requires Fresh(c, w, up)
    requires t == k * Total(w, up)
    ensures After(c, w, up, t) == c
    ensures forall i :: 0 <= i < |c| ==> Picks(c, w, up, t, i) == if up[i] then k * w[i] else 0
  {
    RunBounds(c, w, up, t);
    var a := Masked(After(c, w, up, t), up);
    forall i: nat | i < |c| && up[i]
      ensures a[i] >= 0
    {
      CycleEntry(c, w, up, k, t, i);
    }
    SumPositive(a);
    assert After(c, w, up, t) == c;
    forall i: nat | i < |c| && up[i]
      ensures Picks(c, w, up, t, i) == k * w[i]
    {
      CycleEntry(c, w, up, k, t, i);
    }
  }

  lemma {:induction false} CycleEntry(c: seq<int>, w: seq<int>, up: seq<bool>, k: nat, t: nat, i: nat)
    requires Fresh(c, w, up) && i < |c| && up[i]
    requires t == k * Total(w, up)
    ensures After(c, w, up, t)[i] >= 0
    ensures After(c, w, up, t)[i] == 0 ==> Picks(c, w, up, t, i) == k * w[i]
  {
    TotalPositive(w, up);
    RunBounds(c, w, up, t);
    Ledger(c, w, up, t, i);
    Quotients(Total(w, up), w[i], Picks(c, w, up, t, i), k, t, After(c, w, up, t)[i]);
  }

  lemma {:induction false} AfterComposes(c: seq<int>, w: seq<int>, up: seq<bool>, s: nat, t: nat)
    requires Sized(c, w, up)
    ensures After(c, w, up, s + t) == After(After(c, w, up, s), w, up, t)
  {
    if t == 0 {
    } else {
      AfterComposes(c, w, up, s, t - 1);
    }
  }

  /** The selections repeat with period W. */
  lemma {:induction false} SelectionIsPeriodic(c: seq<int>, w: seq<int>, up: seq<bool>, t: nat)
    requires Fresh(c, w, up)
    ensures Total(w, up) >= 1
    ensures PickAt(c, w, up, t + Total(w, up)) == PickAt(c, w, up, t)
  {
    TotalPositive(w, up);
    CycleIsExact(c, w, up, 1, Total(w, up));
    AfterComposes(c, w, up, Total(w, up), t);
  }

  /** Weights 5, 1, 1 select A A B A C A A, not the A A B A A C A of the comment beside Next. */
  lemma {:induction false} FiveOneOne(c: seq<int>, w: seq<int>, up: seq<bool>)
    requires c == [0, 0, 0] && w == [5, 1, 1] && up == [true, true, true]
    ensures PickAt(c, w, up, 0) == 0 && PickAt(c, w, up, 1) == 0 && PickAt(c, w, up, 2) == 1
    ensures PickAt(c, w, up, 3) == 0 && PickAt(c, w, up, 4) == 2 && PickAt(c, w, up, 5) == 0
    ensures PickAt(c, w, up, 6) == 0
  {
    var s := FiveOneOneStep(c, w, up, 0, c, 0);
    s := FiveOneOneStep(c, w, up, 1, s, 0);
    s := FiveOneOneStep(c, w, up, 2, s, 1);
    s := FiveOneOneStep(c, w, up, 3, s, 0);
    s := FiveOneOneStep(c, w, up, 4, s, 2);
    s := FiveOneOneStep(c, w, up, 5, s, 0);
    s := FiveOneOneStep(c, w, up, 6, s, 0);
  }

  lemma {:induction false} SumOfThree(w: seq<int>, x: int, y: int, z: int)
    requires w == [x, y, z]
    ensures Sum(w) == x + y + z
  {
    SumAppend([], x);
    SumAppend([x], y);
    SumAppend([x, y], z);
    assert [] + [x] == [x] && [x] + [y] == [x, y] && [x, y] + [z] == w;
  }

  /** One call with weights 5, 1, 1. */
  lemma {:induction false} FiveOneOneCall(s: seq<int>, w: seq<int>, up: seq<bool>, credit: seq<int>, p: int)
    requires |s| == 3 && w == [5, 1, 1] && up == [true, true, true]
    requires credit == [s[0] + 5, s[1] + 1, s[2] + 1] && IsLeader(credit, up, 3, p)
    ensures Leader(s, w, up) == p && Advance(s, w, up) == credit[p := credit[p] - 7]
  {
    assert Gain(w, up) == w;
    SumOfThree(w, 5, 1, 1);
    assert Credit(s, w, up) == credit;
    LeaderIsUnique(s, w, up, p);
  }

  lemma {:induction false} FiveOneOneStep(c: seq<int>, w: seq<int>, up: seq<bool>, t: nat, s: seq<int>, p: int)
    returns (next: seq<int>)
    requires |c| == |s| == 3 && w == [5, 1, 1] && up == [true, true, true]
    requires After(c, w, up, t) == s
    requires IsLeader([s[0] + 5, s[1] + 1, s[2] + 1], up, 3, p)
    ensures PickAt(c, w, up, t) == p && After(c, w, up, t + 1) == next
    ensures next == [s[0] + 5, s[1] + 1, s[2] + 1][p := [s[0] + 5, s[1] + 1, s[2] + 1][p] - 7]
  {
    var credit := [s[0] + 5, s[1] + 1, s[2] + 1];
    FiveOneOneCall(s, w, up, credit, p);
    next := credit[p := credit[p] - 7];
  }
}
