/** The token bucket of internal/ratelimiter, with float64 modelled as real and time in seconds. */
module TokenBucket {

  datatype Bucket = Bucket(rate: real, capacity: real, tokens: real, lastFill: real)

  /** Tokens that a rate brings between two times. */
  function Flow(rate: real, from: real, to: real): real {
    rate * (to - from)
  }

  function Refill(b: Bucket, now: real): Bucket {
    var filled := b.tokens + Flow(b.rate, b.lastFill, now);
    b.(tokens := if filled > b.capacity then b.capacity else filled, lastFill := now)
  }

  predicate Admits(b: Bucket, now: real, n: int) {
    Refill(b, now).tokens >= n as real
  }

  function Take(b: Bucket, now: real, n: int): Bucket {
    var r := Refill(b, now);
    if r.tokens >= n as real then r.(tokens := r.tokens - n as real) else r
  }

  /** A bucket admits n at a time if and only if n fits into it and the tokens it held then, with what
      the rate brought since, are enough; and it never holds more than its capacity. */
  lemma {:induction false} AdmitsIff(b: Bucket, now: real, n: int)
    ensures Admits(b, now, n) <==>
              n as real <= b.capacity && n as real <= b.tokens + b.rate * (now - b.lastFill)
    ensures Take(b, now, n).tokens <= b.capacity - (if Admits(b, now, n) then n as real else 0.0)
    ensures b.tokens + b.rate * (now - b.lastFill) <= b.capacity ==>
              Take(b, now, n).tokens
              == b.tokens + b.rate * (now - b.lastFill) - (if Admits(b, now, n) then n as real else 0.0)
  {
    var gain := b.rate * (now - b.lastFill);
    assert Flow(b.rate, b.lastFill, now) == gain;
    var filled := b.tokens + gain;
    assert Refill(b, now).tokens == if filled > b.capacity then b.capacity else filled;
  }

  class Limiter {
    var rate: real
    var capacity: real
    var tokens: real
    var lastFill: real
    var totalAllowed: nat
    var totalDenied: nat

    function View(): Bucket
      reads this
    {
      Bucket(rate, capacity, tokens, lastFill)
    }

    ghost predicate Valid()
      reads this
    {
      rate > 0.0 && capacity >= 1.0 && 0.0 <= tokens <= capacity
    }

    constructor (r: real, burst: int, now: real)
      ensures Valid() && Full(View()) && lastFill == now
      ensures rate == (if r <= 0.0 then 1.0 else r)
      ensures capacity == (if burst <= 0 then 1.0 else burst as real)
      ensures totalAllowed == totalDenied == 0
    {
      rate := if r <= 0.0 then 1.0 else r;
      capacity := if burst <= 0 then 1.0 else burst as real;
      tokens := if burst <= 0 then 1.0 else burst as real;
      lastFill := now;
      totalAllowed, totalDenied := 0, 0;
    }

    method RefillNow(now: real)
      requires Valid() && lastFill <= now
      modifies this`tokens, this`lastFill
      ensures Valid() && View() == Refill(old(View()), now)
      ensures var filled := old(tokens) + rate * (now - old(lastFill));
        tokens == if filled > capacity then capacity else filled
    {
      FlowIsNonNegative(rate, lastFill, now);
      var elapsed := now - lastFill;
      tokens := tokens + rate * elapsed;
      if tokens > capacity {
        tokens := capacity;
      }
      lastFill := now;
    }

    method AllowN(n: nat, now: real) returns (allowed: bool)
      requires Valid() && lastFill <= now
      modifies this
      ensures Valid()
      ensures allowed == Admits(old(View()), now, n)
      ensures allowed <==> n as real <= capacity && n as real <= old(tokens) + rate * (now - old(lastFill))
      ensures View() == Take(old(View()), now, n)
      ensures totalAllowed == old(totalAllowed) + (if allowed then 1 else 0)
      ensures totalDenied == old(totalDenied) + (if allowed then 0 else 1)
    {
      AdmitsIff(View(), now, n);
      RefillNow(now);
      if tokens >= n as real {
        tokens := tokens - n as real;
        totalAllowed := totalAllowed + 1;
        return true;
      }
      totalDenied := totalDenied + 1;
      return false;
    }

    /** Stats refills before it reads. */
    method Stats(now: real) returns (b: Bucket, allowed: nat, denied: nat)
      requires Valid() && lastFill <= now
      modifies this`tokens, this`lastFill
      ensures Valid() && b == View() == Refill(old(View()), now)
      ensures allowed == totalAllowed && denied == totalDenied
    {
      RefillNow(now);
      b, allowed, denied := View(), totalAllowed, totalDenied;
    }

    method SetRate(r: real, now: real)
      requires Valid() && lastFill <= now
      modifies this`tokens, this`lastFill, this`rate
      ensures Valid()
      ensures View() == if r <= 0.0 then old(View()) else Refill(old(View()), now).(rate := r)
    {
      if r <= 0.0 {
        return;
      }
      RefillNow(now);
      rate := r;
    }

    method Reset(now: real)
      requires Valid()
      modifies this`tokens, this`lastFill
      ensures Valid() && Full(View())
      ensures View() == old(View()).(tokens := capacity, lastFill := now)
    {
      tokens := capacity;
      lastFill := now;
    }
  }

  ghost predicate Full(b: Bucket) {
    b.rate > 0.0 && b.capacity >= 0.0 && b.tokens == b.capacity
  }

  lemma FlowIsNonNegative(rate: real, from: real, to: real)
    requires rate >= 0.0 && from <= to
    ensures Flow(rate, from, to) >= 0.0
  {
  }

  lemma {:induction false} FlowAdds(rate: real, from: real, mid: real, to: real)
    ensures Flow(rate, from, mid) + Flow(rate, mid, to) == Flow(rate, from, to)
  {
    var x, y := mid - from, to - mid;
    assert rate * x + rate * y == rate * (x + y);
  }

  // ---------------------------------------------------------------- traces

  /** The calls that take the lock; a SetRate that is ignored is not one of them. */
  datatype Event = AllowN(at: real, n: nat) | Stats(at: real) | SetRate(at: real, rate: real) | Reset(at: real)

  function Step(b: Bucket, e: Event): Bucket {
    match e
    case AllowN(at, n) => Take(b, at, n)
    case Stats(at) => Refill(b, at)
    case SetRate(at, rate) => Refill(b, at).(rate := rate)
    case Reset(at) => b.(tokens := b.capacity, lastFill := at)
  }

  function Play(b: Bucket, es: seq<Event>): Bucket {
    if es == [] then b else Step(Play(b, es[..|es| - 1]), es[|es| - 1])
  }

  /** Calls in order of time, none before the bucket was filled, rates positive. */
  ghost predicate Timely(b: Bucket, es: seq<Event>) {
    && (forall i :: 0 <= i < |es| ==> b.lastFill <= es[i].at && (es[i].SetRate? ==> es[i].rate > 0.0))
    && (forall i, j :: 0 <= i < j < |es| ==> es[i].at <= es[j].at)
  }

  /** Tokens in the bucket when call k looks at it. */
  function Available(b: Bucket, es: seq<Event>, k: nat): real
    requires k < |es|
  {
    Refill(Play(b, es[..k]), es[k].at).tokens
  }

  function Demand(e: Event): real {
    if e.AllowN? then e.n as real else 0.0
  }

  predicate Granted(b: Bucket, es: seq<Event>, k: nat)
    requires k < |es|
  {
    Available(b, es, k) >= Demand(es[k])
  }

  /** Tokens demanded by, and granted to, the calls i, ..., k - 1. */
  function Demanded(es: seq<Event>, i: nat, k: nat): real
    requires i <= k <= |es|
  {
    if i == k then 0.0 else Demanded(es, i, k - 1) + Demand(es[k - 1])
  }

  function Spent(b: Bucket, es: seq<Event>, i: nat, k: nat): real
    requires i <= k <= |es|
  {
    if i == k then 0.0
    else Spent(b, es, i, k - 1) + (if Granted(b, es, k - 1) then Demand(es[k - 1]) else 0.0)
  }

  /** The rate in force after some calls: that of the last SetRate, or the one the bucket began with. */
  function RateAfter(b: Bucket, es: seq<Event>): real {
    if es == [] then b.rate
    else if es[|es| - 1].SetRate? then es[|es| - 1].rate
    else RateAfter(b, es[..|es| - 1])
  }

  /** Tokens that the rates in force bring between the times of calls i and k. */
  function Accrued(b: Bucket, es: seq<Event>, i: nat, k: nat): real
    requires i <= k < |es|
  {
    if i == k then 0.0
    else Accrued(b, es, i, k - 1) + RateAfter(b, es[..k]) * (es[k].at - es[k - 1].at)
  }

  lemma {:induction false} RateIsInForce(b: Bucket, es: seq<Event>)
    ensures Play(b, es).rate == RateAfter(b, es)
  {
    if es == [] {
    } else {
      RateIsInForce(b, es[..|es| - 1]);
    }
  }

  lemma {:induction false} FlowAt(b: Bucket, es: seq<Event>, k: nat)
    requires 0 < k < |es|
    ensures Flow(Play(b, es[..k]).rate, es[k - 1].at, es[k].at) == RateAfter(b, es[..k]) * (es[k].at - es[k - 1].at)
  {
    RateIsInForce(b, es[..k]);
  }

  /** What a bucket full at call j would hold at call k, were it not capped in between. */
  function Level(b: Bucket, es: seq<Event>, j: nat, k: nat): real
    requires j <= k < |es|
  {
    b.capacity + Accrued(b, es, j, k) - Spent(b, es, j, k)
  }

  lemma {:induction false} PlayLast(b: Bucket, es: seq<Event>, k: nat)
    requires k < |es|
    ensures Play(b, es[..k + 1]) == Step(Play(b, es[..k]), es[k])
  {
    assert es[..k + 1][..k] == es[..k];
  }

  /** After call k the bucket holds what was available minus what was granted. */
  lemma {:induction false} AfterCall(b: Bucket, es: seq<Event>, k: nat)
    requires k < |es|
    ensures var a := Play(b, es[..k + 1]);
      && a.lastFill == es[k].at && a.capacity == Play(b, es[..k]).capacity
      && a.tokens == if es[k].Reset? then a.capacity
                     else Available(b, es, k) - (if Granted(b, es, k) then Demand(es[k]) else 0.0)
  {
    PlayLast(b, es, k);
  }

  lemma {:induction false} StepBounds(b: Bucket, e: Event)
    requires b.rate > 0.0 && 0.0 <= b.tokens <= b.capacity && b.lastFill <= e.at
    requires e.SetRate? ==> e.rate > 0.0
    ensures var a := Step(b, e);
      a.rate > 0.0 && 0.0 <= a.tokens <= a.capacity == b.capacity && a.lastFill == e.at
  {
    FlowIsNonNegative(b.rate, b.lastFill, e.at);
  }

  lemma {:induction false} RunBounds(b: Bucket, es: seq<Event>, k: nat)
    requires Full(b) && Timely(b, es) && k <= |es|
    ensures var a := Play(b, es[..k]);
      && a.rate > 0.0 && 0.0 <= a.tokens <= a.capacity == b.capacity
      && a.lastFill == if k == 0 then b.lastFill else es[k - 1].at
  {
    if k == 0 {
    } else {
      RunBounds(b, es, k - 1);
      PlayLast(b, es, k - 1);
      StepBounds(Play(b, es[..k - 1]), es[k - 1]);
    }
  }

  /** The last Reset before call k, or 0 when there was none. */
  function Since(es: seq<Event>, k: nat): (j: nat)
    requires k <= |es|
    ensures j <= k
    ensures forall i :: j < i < k ==> !es[i].Reset?
  {
    if k == 0 then 0 else if es[k - 1].Reset? then k - 1 else Since(es, k - 1)
  }

  /** How many of the calls i, ..., k - 1 are a Reset. */
  function Resets(es: seq<Event>, i: nat, k: nat): nat
    requires i <= k <= |es|
  {
    if i == k then 0 else Resets(es, i, k - 1) + (if es[k - 1].Reset? then 1 else 0)
  }

  /** What one more call adds to the bucket, before the cap. */
  function Shift(b: Bucket, es: seq<Event>, k: nat): real
    requires 0 < k < |es|
  {
    Flow(Play(b, es[..k]).rate, es[k - 1].at, es[k].at)
    - (if Granted(b, es, k - 1) then Demand(es[k - 1]) else 0.0)
  }

  lemma {:induction false} AccruedNext(b: Bucket, es: seq<Event>, i: nat, k: nat)
    requires i < k < |es|
    ensures Accrued(b, es, i, k) == Accrued(b, es, i, k - 1) + Flow(Play(b, es[..k]).rate, es[k - 1].at, es[k].at)
  {
    FlowAt(b, es, k);
  }

  lemma {:induction false} LevelShift(b: Bucket, es: seq<Event>, j: nat, k: nat)
    requires 0 < k < |es| && j < k
    ensures Level(b, es, j, k) == Level(b, es, j, k - 1) + Shift(b, es, k)
  {
    AccruedNext(b, es, j, k);
  }

  lemma {:induction false} AvailableShift(b: Bucket, es: seq<Event>, k: nat)
    requires Full(b) && Timely(b, es) && 0 < k < |es|
    ensures var x := Available(b, es, k - 1) + Shift(b, es, k);
      Available(b, es, k) == if es[k - 1].Reset? || x > b.capacity then b.capacity else x
  {
    RunBounds(b, es, k);
    AfterCall(b, es, k - 1);
    FlowIsNonNegative(Play(b, es[..k]).rate, es[k - 1].at, es[k].at);
  }

  /** Closed form: what is available to call k is the least of the levels of the calls up to k since
      the last Reset. */
  lemma {:induction false} ClosedForm(b: Bucket, es: seq<Event>, k: nat) returns (low: nat)
    requires Full(b) && Timely(b, es) && k < |es|
    ensures Since(es, k) <= low <= k && Available(b, es, k) == Level(b, es, low, k)
    ensures forall j: nat :: Since(es, k) <= j <= k ==> Available(b, es, k) <= Level(b, es, j, k)
  {
    if k == 0 {
      FlowIsNonNegative(b.rate, b.lastFill, es[0].at);
      low := 0;
    } else if es[k - 1].Reset? {
      AvailableShift(b, es, k);
      RunBounds(b, es, k);
      FlowIsNonNegative(Play(b, es[..k]).rate, es[k - 1].at, es[k].at);
      assert Level(b, es, k - 1, k - 1) == b.capacity;
      LevelShift(b, es, k - 1, k);
      low := k;
    } else {
      low := ClosedForm(b, es, k - 1);
      AvailableShift(b, es, k);
      forall j: nat | j < k ensures Level(b, es, j, k) == Level(b, es, j, k - 1) + Shift(b, es, k) {
        LevelShift(b, es, j, k);
      }
      if Available(b, es, k) == b.capacity {
        low := k;
      }
    }
  }

  lemma {:induction false} AvailableBounds(b: Bucket, es: seq<Event>, k: nat)
    requires Full(b) && Timely(b, es) && k < |es|
    ensures 0.0 <= Available(b, es, k) <= b.capacity
  {
    RunBounds(b, es, k);
    var p := Play(b, es[..k]);
    FlowIsNonNegative(p.rate, p.lastFill, es[k].at);
  }

  /** A bucketful for every Reset among the calls i, ..., k - 1. */
  function Refilled(b: Bucket, es: seq<Event>, i: nat, k: nat): real
    requires i <= k <= |es|
  {
    if i == k then 0.0 else Refilled(b, es, i, k - 1) + (if es[k - 1].Reset? then b.capacity else 0.0)
  }

  lemma {:induction false} OneMoreReset(capacity: real, n: nat)
    ensures capacity * (n + 1) as real == capacity * n as real + capacity
  {
    assert (n + 1) as real == n as real + 1.0;
  }

  lemma {:induction false} RefilledIs(b: Bucket, es: seq<Event>, i: nat, k: nat)
    requires i <= k <= |es|
    ensures Refilled(b, es, i, k) == b.capacity * Resets(es, i, k) as real
    decreases k
  {
    if i == k {
    } else {
      RefilledIs(b, es, i, k - 1);
      OneMoreReset(b.capacity, Resets(es, i, k - 1));
    }
  }

  /** What a window from call i allows by call k: a bucketful, one more for every Reset, and what accrues. */
  function Allowance(b: Bucket, es: seq<Event>, i: nat, k: nat): real
    requires i <= k < |es|
  {
    b.capacity + Refilled(b, es, i, k) + Accrued(b, es, i, k)
  }

  lemma {:induction false} SpentAndLeft(b: Bucket, es: seq<Event>, i: nat, k: nat)
    requires Full(b) && Timely(b, es) && i <= k < |es|
    ensures Spent(b, es, i, k) + Available(b, es, k) <= Allowance(b, es, i, k)
    decreases k
  {
    AvailableBounds(b, es, k);
    if i == k {
    } else {
      SpentAndLeft(b, es, i, k - 1);
      AvailableBounds(b, es, k - 1);
      AccruedNext(b, es, i, k);
      AvailableShift(b, es, k);
      RunBounds(b, es, k);
      FlowIsNonNegative(Play(b, es[..k]).rate, es[k - 1].at, es[k].at);
    }
  }

  /** Every window: the calls i to k are granted at most the capacity, once more for every Reset among
      them, plus what accrues across it. */
  lemma {:induction false} WindowBound(b: Bucket, es: seq<Event>, i: nat, k: nat)
    requires Full(b) && Timely(b, es) && i <= k < |es|
    ensures Spent(b, es, i, k + 1) <= b.capacity + b.capacity * Resets(es, i, k) as real + Accrued(b, es, i, k)
  {
    SpentAndLeft(b, es, i, k);
    RefilledIs(b, es, i, k);
    AvailableBounds(b, es, k);
  }

  ghost predicate FixedRate(es: seq<Event>) {
    forall i :: 0 <= i < |es| ==> !es[i].SetRate?
  }

  lemma {:induction false} FixedRateKept(b: Bucket, es: seq<Event>)
    requires FixedRate(es)
    ensures RateAfter(b, es) == b.rate
  {
    if es == [] {
    } else {
      FixedRateKept(b, es[..|es| - 1]);
    }
  }

  /** At a fixed rate the accrual is rate times elapsed time. */
  lemma {:induction false} FixedRateAccrual(b: Bucket, es: seq<Event>, i: nat, k: nat)
    requires FixedRate(es) && i <= k < |es|
    ensures Accrued(b, es, i, k) == b.rate * (es[k].at - es[i].at)
    decreases k
  {
    if i == k {
    } else {
      FixedRateKept(b, es[..k]);
      FixedRateAccrual(b, es, i, k - 1);
      FlowAdds(b.rate, es[i].at, es[k - 1].at, es[k].at);
    }
  }

  /** The level of call j at call k, at a fixed rate. */
  lemma {:induction false} FixedRateLevel(b: Bucket, es: seq<Event>, j: nat, k: nat)
    requires FixedRate(es) && j <= k < |es|
    ensures Level(b, es, j, k) == b.capacity + b.rate * (es[k].at - es[j].at) - Spent(b, es, j, k)
  {
    FixedRateAccrual(b, es, j, k);
  }

  /** The closed form at a fixed rate: tokens are the minimum, over the calls j since the last Reset, of
      capacity + rate * (t - t_j) - granted since j. */
  lemma {:induction false} FixedRateClosedForm(b: Bucket, es: seq<Event>, k: nat) returns (low: nat)
    requires Full(b) && Timely(b, es) && FixedRate(es) && k < |es|
    ensures Since(es, k) <= low <= k
    ensures Available(b, es, k) == b.capacity + b.rate * (es[k].at - es[low].at) - Spent(b, es, low, k)
    ensures forall j: nat :: Since(es, k) <= j <= k ==>
              Available(b, es, k) <= b.capacity + b.rate * (es[k].at - es[j].at) - Spent(b, es, j, k)
  {
    low := ClosedForm(b, es, k);
    FixedRateLevel(b, es, low, k);
    forall j: nat | Since(es, k) <= j <= k
      ensures Available(b, es, k) <= b.capacity + b.rate * (es[k].at - es[j].at) - Spent(b, es, j, k)
    {
      assert Available(b, es, k) <= Level(b, es, j, k);
      FixedRateLevel(b, es, j, k);
    }
  }

  /** With a constant rate: no window grants more than capacity + rate * duration, with one more
      capacity for every Reset in it. */
  lemma {:induction false} RateLimit(b: Bucket, es: seq<Event>, i: nat, k: nat)
    requires Full(b) && Timely(b, es) && FixedRate(es) && i <= k < |es|
    ensures Spent(b, es, i, k + 1)
         <= b.capacity + b.capacity * Resets(es, i, k) as real + b.rate * (es[k].at - es[i].at)
  {
    WindowBound(b, es, i, k);
    FixedRateAccrual(b, es, i, k);
  }

  ghost predicate AllGranted(b: Bucket, es: seq<Event>, n: nat)
    requires n <= |es|
  {
    forall k: nat :: k < n ==> Granted(b, es, k)
  }

  /** Every window between two Resets and before call n demands no more than the capacity plus what accrues. */
  ghost predicate Fits(b: Bucket, es: seq<Event>, n: nat)
    requires n <= |es|
  {
    forall i: nat, k: nat :: k < n && Since(es, k) <= i <= k ==>
      Demanded(es, i, k + 1) <= b.capacity + Accrued(b, es, i, k)
  }

  lemma {:induction false} GrantedIsDemanded(b: Bucket, es: seq<Event>, i: nat, k: nat)
    requires i <= k <= |es| && AllGranted(b, es, k)
    ensures Spent(b, es, i, k) == Demanded(es, i, k)
    decreases k
  {
    if i == k {
    } else {
      GrantedIsDemanded(b, es, i, k - 1);
    }
  }

  lemma {:induction false} FittingIsGranted(b: Bucket, es: seq<Event>, n: nat)
    requires Full(b) && Timely(b, es) && n <= |es| && Fits(b, es, n)
    ensures AllGranted(b, es, n)
  {
    if n == 0 {
    } else {
      FittingIsGranted(b, es, n - 1);
      var low := ClosedForm(b, es, n - 1);
      GrantedIsDemanded(b, es, low, n - 1);
      assert Demanded(es, low, n) <= b.capacity + Accrued(b, es, low, n - 1);
    }
  }

  /** A trace is admitted in full exactly when the demand of every window without a Reset inside fits
      its bound. */
  lemma {:induction false} AdmittedIffFits(b: Bucket, es: seq<Event>)
    requires Full(b) && Timely(b, es)
    ensures AllGranted(b, es, |es|) <==> Fits(b, es, |es|)
  {
    if Fits(b, es, |es|) {
      FittingIsGranted(b, es, |es|);
    }
    if AllGranted(b, es, |es|) {
      forall i: nat, k: nat | k < |es| && Since(es, k) <= i <= k
        ensures Demanded(es, i, k + 1) <= b.capacity + Accrued(b, es, i, k)
      {
        var low := ClosedForm(b, es, k);
        assert Available(b, es, k) <= Level(b, es, i, k) && Granted(b, es, k);
        GrantedIsDemanded(b, es, i, k);
      }
    }
  }

  // ---------------------------------------------------------------- Stats is invisible

  lemma {:induction false} RefillComposes(b: Bucket, t: real, u: real)
    requires b.rate >= 0.0 && t <= u
    ensures Refill(Refill(b, t), u) == Refill(b, u)
  {
    FlowIsNonNegative(b.rate, t, u);
    FlowAdds(b.rate, b.lastFill, t, u);
  }

  function WithoutStats(es: seq<Event>): seq<Event> {
    if es == [] then []
    else WithoutStats(es[..|es| - 1]) + (if es[|es| - 1].Stats? then [] else [es[|es| - 1]])
  }

  /** The answers of the AllowN calls, in order. */
  function Answers(b: Bucket, es: seq<Event>): seq<bool> {
    if es == [] then []
    else
      var most, e := es[..|es| - 1], es[|es| - 1];
      Answers(b, most) + (if e.AllowN? then [Admits(Play(b, most), e.at, e.n)] else [])
  }

  /** Calls to Stats, however interleaved, change no answer, nor what any later call will find. */
  lemma {:induction false} StatsAreInvisible(b: Bucket, es: seq<Event>)
    requires b.rate > 0.0 && Timely(b, es)
    ensures Answers(b, es) == Answers(b, WithoutStats(es))
    ensures Play(b, es).rate == Play(b, WithoutStats(es)).rate > 0.0
    ensures forall u: real :: (forall i :: 0 <= i < |es| ==> es[i].at <= u) ==>
              Refill(Play(b, es), u) == Refill(Play(b, WithoutStats(es)), u)
  {
    if es == [] {
    } else {
      var most, e := es[..|es| - 1], es[|es| - 1];
      StatsAreInvisible(b, most);
      var p, q := Play(b, most), Play(b, WithoutStats(most));
      assert Refill(p, e.at) == Refill(q, e.at);
      if e.Stats? {
        assert WithoutStats(es) == WithoutStats(most);
        assert Answers(b, es) == Answers(b, most);
        forall u: real | forall i :: 0 <= i < |es| ==> es[i].at <= u
          ensures Refill(Play(b, es), u) == Refill(Play(b, WithoutStats(es)), u)
        {
          assert e.at <= u;
          RefillComposes(p, e.at, u);
        }
      } else {
        var less := WithoutStats(most);
        assert (less + [e])[..|less|] == less;
      }
    }
  }
}
