/** Sums over sequences and counts over windows of consecutive call numbers. */
module Counting {

  function Sum(s: seq<int>): int {
    if s == [] then 0 else Sum(s[..|s| - 1]) + s[|s| - 1]
  }

  lemma {:induction false} SumAppend(s: seq<int>, x: int)
    ensures Sum(s + [x]) == Sum(s) + x
  {
    assert (s + [x])[..|s|] == s;
  }

  lemma {:induction false} SumPrefix(s: seq<int>, i: nat)
    requires i < |s|
    ensures Sum(s[..i + 1]) == Sum(s[..i]) + s[i]
  {
    assert s[..i + 1] == s[..i] + [s[i]];
    SumAppend(s[..i], s[i]);
  }

  lemma {:induction false} SumConcat(a: seq<int>, b: seq<int>)
    ensures Sum(a + b) == Sum(a) + Sum(b)
  {
    if b == [] {
      assert a + b == a;
    } else {
      var m := |b| - 1;
      assert a + b == (a + b[..m]) + [b[m]];
      SumAppend(a + b[..m], b[m]);
      SumConcat(a, b[..m]);
    }
  }

  lemma {:induction false} SumUpdate(s: seq<int>, i: nat, x: int)
    requires i < |s|
    ensures Sum(s[i := x]) == Sum(s) - s[i] + x
  {
    var m := |s| - 1;
    if i == m {
      assert s[i := x] == s[..m] + [x];
      SumAppend(s[..m], x);
    } else {
      assert s[i := x][..m] == s[..m][i := x];
      SumUpdate(s[..m], i, x);
    }
  }

  /** Removing position i takes exactly its own term out of the sum. */
  lemma {:induction false} SumRemove(s: seq<int>, i: nat)
    requires i < |s|
    ensures Sum(s[..i] + s[i + 1..]) == Sum(s) - s[i]
  {
    assert s == s[..i] + [s[i]] + s[i + 1..];
    SumAround(s[..i], s[i], s[i + 1..]);
  }

  lemma {:induction false} SumAround(a: seq<int>, x: int, b: seq<int>)
    ensures Sum(a + [x] + b) == Sum(a + b) + x
  {
    SumConcat(a + [x], b);
    SumAppend(a, x);
    SumConcat(a, b);
  }

  lemma {:induction false} SumPositive(s: seq<int>)
    requires forall i :: 0 <= i < |s| ==> s[i] >= 0
    ensures Sum(s) >= 0
    ensures forall i :: 0 <= i < |s| ==> s[i] <= Sum(s)
  {
    if s == [] {
    } else {
      SumPositive(s[..|s| - 1]);
    }
  }

  lemma {:induction false} SumAtMost(s: seq<int>, bound: int)
    requires forall i :: 0 <= i < |s| ==> s[i] <= bound
    ensures Sum(s) <= |s| * bound
  {
    if s == [] {
    } else {
      SumAtMost(s[..|s| - 1], bound);
    }
  }

  lemma {:induction false} SumAtLeast(s: seq<int>, bound: int)
    requires forall i :: 0 <= i < |s| ==> s[i] >= bound
    ensures Sum(s) >= |s| * bound
  {
    if s == [] {
    } else {
      SumAtLeast(s[..|s| - 1], bound);
    }
  }

  lemma {:induction false} SumPointwise(a: seq<int>, b: seq<int>, c: seq<int>)
    requires |a| == |b| == |c|
    requires forall i :: 0 <= i < |a| ==> c[i] == a[i] + b[i]
    ensures Sum(c) == Sum(a) + Sum(b)
  {
    if a == [] {
    } else {
      var m := |a| - 1;
      SumPointwise(a[..m], b[..m], c[..m]);
    }
  }

  // ---------------------------------------------------------------- tallies

  function Mapped<T>(s: seq<T>, f: T -> int): (r: seq<int>)
    ensures |r| == |s| && forall i :: 0 <= i < |s| ==> r[i] == f(s[i])
  {
    seq(|s|, i requires 0 <= i < |s| => f(s[i]))
  }

  /** The sum of f over a sequence. */
  function Tally<T>(s: seq<T>, f: T -> int): int {
    Sum(Mapped(s, f))
  }

  lemma {:induction false} TallyAppend<T>(s: seq<T>, x: T, f: T -> int)
    ensures Tally(s + [x], f) == Tally(s, f) + f(x)
  {
    SumAppend(Mapped(s, f), f(x));
    assert Mapped(s + [x], f) == Mapped(s, f) + [f(x)];
  }

  lemma {:induction false} TallyUpdate<T>(s: seq<T>, k: nat, x: T, f: T -> int)
    requires k < |s|
    ensures Tally(s[k := x], f) == Tally(s, f) - f(s[k]) + f(x)
  {
    SumUpdate(Mapped(s, f), k, f(x));
    assert Mapped(s[k := x], f) == Mapped(s, f)[k := f(x)];
  }

  lemma {:induction false} TallyZero<T>(s: seq<T>, f: T -> int)
    requires forall i :: 0 <= i < |s| ==> f(s[i]) == 0
    ensures Tally(s, f) == 0
  {
    SumAtMost(Mapped(s, f), 0);
    SumAtLeast(Mapped(s, f), 0);
  }

  lemma {:induction false} ModUnique(a: int, n: int, q: int, r: int)
    requires a == n * q + r && 0 <= r < n
    ensures a % n == r
  {
    var k := q - a / n;
    assert n * k == a % n - r;
    assert k >= 1 ==> n * k >= n;
    assert k <= -1 ==> n * k <= -n;
  }

  lemma {:induction false} OneLap(n: nat, x: nat)
    requires 0 < n
    ensures (x + n) % n == x % n
  {
    ModUnique(x + n, n, x / n + 1, x % n);
  }

  /** How many of the n numbers lo, lo + 1, ... satisfy hit. */
  function Count(hit: nat -> bool, lo: nat, n: nat): (k: nat)
    ensures k <= n
  {
    if n == 0 then 0 else Count(hit, lo, n - 1) + (if hit(lo + n - 1) then 1 else 0)
  }

  lemma {:induction false} CountSame(p: nat -> bool, q: nat -> bool, first: nat, n: nat)
    requires forall x: nat :: p(x) == q(x)
    ensures Count(p, first, n) == Count(q, first, n)
  {
    if n == 0 {
    } else {
      CountSame(p, q, first, n - 1);
    }
  }

  lemma {:induction false} CountSplit(hit: nat -> bool, lo: nat, n: nat, m: nat)
    ensures Count(hit, lo, n + m) == Count(hit, lo, n) + Count(hit, lo + n, m)
  {
    if m == 0 {
    } else {
      CountSplit(hit, lo, n, m - 1);
    }
  }

  /** When the hits of a window are exactly the interval of d numbers from a, it counts d. */
  lemma {:induction false} CountInterval(hit: nat -> bool, lo: nat, n: nat, a: nat, d: nat)
    requires lo <= a && a + d <= lo + n
    requires forall x: nat :: lo <= x < lo + n ==> (hit(x) <==> a <= x < a + d)
    ensures Count(hit, lo, n) == d
  {
    if n == 0 {
    } else {
      var keep: nat := if d > 0 && a + d == lo + n then d - 1 else d;
      CountInterval(hit, lo, n - 1, if a == lo + n then a - 1 else a, keep);
    }
  }

  ghost predicate Periodic(hit: nat -> bool, period: nat) {
    forall x: nat :: hit(x) == hit(x + period)
  }

  /** A window of one full period sees the same number of hits wherever it starts. */
  lemma {:induction false} WindowIndependent(hit: nat -> bool, period: nat, lo: nat)
    requires Periodic(hit, period)
    ensures Count(hit, lo, period) == Count(hit, 0, period)
  {
    if lo == 0 {
    } else {
      WindowIndependent(hit, period, lo - 1);
      CountSplit(hit, lo - 1, 1, period);
      CountSplit(hit, lo - 1, period, 1);
      assert hit(lo - 1) == hit(lo - 1 + period);
      assert Count(hit, lo - 1, 1) == Count(hit, lo - 1 + period, 1);
    }
  }
}
