/** The circuit breaker of internal/circuitbreaker, as a class whose methods are one locked section
    each, and as a timed state machine whose runs are arbitrary interleavings of callers. */
module CircuitBreaker {

  datatype State = Closed | Open | HalfOpen

  datatype Config = Config(failureThreshold: int, successThreshold: int, maxHalfOpen: int, timeout: int, window: int)

  const SECOND := 1_000_000_000

  /** The defaults that New fills in. */
  function Normalize(c: Config): (r: Config)
    ensures c.failureThreshold >= 0 && c.successThreshold >= 0 && c.timeout >= 0 && c.window >= 0 ==> Usable(r)
    ensures Usable(c) ==> r == c
    ensures c.failureThreshold == 0 ==> r.failureThreshold == 5
    ensures c.successThreshold == 0 ==> r.successThreshold == 1
    ensures c.maxHalfOpen <= 0 ==> r.maxHalfOpen == r.successThreshold
    ensures c.timeout == 0 ==> r.timeout == 30 * SECOND
    ensures c.window == 0 ==> r.window == 60 * SECOND
  {
    var success := if c.successThreshold == 0 then 1 else c.successThreshold;
    Config(
      if c.failureThreshold == 0 then 5 else c.failureThreshold,
      success,
      if c.maxHalfOpen <= 0 then success else c.maxHalfOpen,
      if c.timeout == 0 then 30 * SECOND else c.timeout,
      if c.window == 0 then 60 * SECOND else c.window)
  }

  ghost predicate Usable(c: Config) {
    c.failureThreshold >= 1 && c.successThreshold >= 1 && c.maxHalfOpen >= 1 && c.timeout >= 1 && c.window >= 1
  }

  /** The fields guarded by the mutex. */
  datatype Core = Core(state: State, failures: int, successes: int, inFlight: int, lastFailure: int, windowStart: int)

  datatype Admission = Admission(core: Core, admitted: bool)

  function AllowStep(cfg: Config, b: Core, now: int): Admission {
    match b.state
    case Closed => Admission(b, true)
    case Open =>
      if now - b.lastFailure >= cfg.timeout
      then Admission(b.(state := HalfOpen, successes := 0, inFlight := 1), true)
      else Admission(b, false)
    case HalfOpen =>
      if b.inFlight >= cfg.maxHalfOpen
      then Admission(b, false)
      else Admission(b.(inFlight := b.inFlight + 1), true)
  }

  function ReportStep(cfg: Config, b: Core, ok: bool, now: int): Core {
    match (b.state, ok)
    case (HalfOpen, true) =>
      if b.successes + 1 >= cfg.successThreshold
      then b.(state := Closed, failures := 0, successes := 0, inFlight := 0, windowStart := now)
      else b.(successes := b.successes + 1, inFlight := if b.inFlight > 0 then b.inFlight - 1 else b.inFlight)
    case (Closed, true) => b.(failures := 0)
    case (HalfOpen, false) => b.(state := Open, lastFailure := now, successes := 0, inFlight := 0)
    case (Closed, false) =>
      var restart := now - b.windowStart > cfg.window;
      var failures := if restart then 1 else b.failures + 1;
      b.(state := if failures >= cfg.failureThreshold then Open else Closed,
         failures := failures,
         lastFailure := now,
         windowStart := if restart then now else b.windowStart)
    case (Open, _) => b
  }

  function ResetStep(b: Core, now: int): Core {
    Core(Closed, 0, 0, 0, b.lastFailure, now)
  }

  class CircuitBreaker {
    const config: Config
    var state: State
    var failures: int
    var successes: int
    var halfOpenInFlight: int
    var lastFailure: int
    var windowStart: int
    var totalRequests: nat
    var totalFailures: nat
    var totalSuccess: nat
    var totalRejected: nat

    function View(): Core
      reads this
    {
      Core(state, failures, successes, halfOpenInFlight, lastFailure, windowStart)
    }

    constructor (c: Config, now: int)
      ensures config == Normalize(c)
      ensures View() == Core(Closed, 0, 0, 0, 0, now)
      ensures totalRequests == totalFailures == totalSuccess == totalRejected == 0
    {
      config := Normalize(c);
      state, failures, successes, halfOpenInFlight, lastFailure, windowStart := Closed, 0, 0, 0, 0, now;
      totalRequests, totalFailures, totalSuccess, totalRejected := 0, 0, 0, 0;
    }

    method Allow(now: int) returns (admitted: bool)
      modifies this
      ensures Admission(View(), admitted) == AllowStep(config, old(View()), now)
      ensures totalRequests == old(totalRequests) + 1
      ensures totalRejected == old(totalRejected) + (if admitted then 0 else 1)
      ensures totalFailures == old(totalFailures) && totalSuccess == old(totalSuccess)
    {
      totalRequests := totalRequests + 1;
      match state {
        case Closed =>
          return true;
        case Open =>
          if now - lastFailure >= config.timeout {
            state := HalfOpen;
            successes := 0;
            halfOpenInFlight := 1;
            return true;
          }
          totalRejected := totalRejected + 1;
          return false;
        case HalfOpen =>
          if halfOpenInFlight >= config.maxHalfOpen {
            totalRejected := totalRejected + 1;
            return false;
          }
          halfOpenInFlight := halfOpenInFlight + 1;
          return true;
      }
    }

    method RecordResult(ok: bool, now: int)
      modifies this
      ensures View() == ReportStep(config, old(View()), ok, now)
      ensures totalSuccess == old(totalSuccess) + (if ok then 1 else 0)
      ensures totalFailures == old(totalFailures) + (if ok then 0 else 1)
      ensures totalRequests == old(totalRequests) && totalRejected == old(totalRejected)
    {
      if ok {
        totalSuccess := totalSuccess + 1;
        match state {
          case HalfOpen =>
            ReleaseProbe();
            successes := successes + 1;
            if successes >= config.successThreshold {
              state := Closed;
              failures := 0;
              successes := 0;
              halfOpenInFlight := 0;
              windowStart := now;
            }
          case Closed =>
            failures := 0;
          case Open =>
        }
      } else {
        totalFailures := totalFailures + 1;
        match state {
          case HalfOpen =>
            state := Open;
            lastFailure := now;
            successes := 0;
            halfOpenInFlight := 0;
          case Closed =>
            if now - windowStart > config.window {
              windowStart := now;
              failures := 0;
            }
            failures := failures + 1;
            lastFailure := now;
            if failures >= config.failureThreshold {
              state := Open;
            }
          case Open =>
        }
      }
    }

    method ReleaseProbe()
      modifies this`halfOpenInFlight
      ensures halfOpenInFlight == if old(halfOpenInFlight) > 0 then old(halfOpenInFlight) - 1 else old(halfOpenInFlight)
    {
      if halfOpenInFlight > 0 {
        halfOpenInFlight := halfOpenInFlight - 1;
      }
    }

    method Reset(now: int)
      modifies this`state, this`failures, this`successes, this`halfOpenInFlight, this`windowStart
      ensures View() == ResetStep(old(View()), now)
    {
      state, failures, successes, halfOpenInFlight, windowStart := Closed, 0, 0, 0, now;
    }
  }

  // ---------------------------------------------------------------- runs

  /** Calls as they reach the mutex. A report names the Allow call (by its number) whose request it
      is about; any number is possible, so late, repeated and unsolicited reports are all covered. */
  datatype Event = Allow(now: int) | Report(id: nat, ok: bool, now: int) | Reset(now: int)

  datatype Record = Record(ok: bool, at: int)

  /** The breaker together with its history: every result recorded so far, how many calls there
      have been and how many were admitted, and for the current half-open episode its admissions,
      its probes not yet reported, and the successes reported by requests that are not its probes. */
  datatype Run = Run(core: Core, clock: int, log: seq<Record>, calls: nat, admissions: nat,
                     episode: nat, probes: set<nat>, strangers: nat)

  function Begin(now: int): Run {
    Run(Core(Closed, 0, 0, 0, 0, now), now, [], 0, 0, 0, {}, 0)
  }

  function Step(cfg: Config, r: Run, e: Event): Run {
    match e
    case Allow(now) =>
      var a := AllowStep(cfg, r.core, now);
      var next := r.(core := a.core, clock := now, calls := r.calls + 1,
                     admissions := r.admissions + (if a.admitted then 1 else 0));
      if !a.admitted || r.core.state.Closed? then next
      else if r.core.state.Open? then next.(episode := 1, probes := {r.calls}, strangers := 0)
      else next.(episode := r.episode + 1, probes := r.probes + {r.calls})
    case Report(id, ok, now) =>
      r.(core := ReportStep(cfg, r.core, ok, now), clock := now, log := r.log + [Record(ok, now)],
         probes := r.probes - {id},
         strangers := r.strangers + (if ok && id !in r.probes then 1 else 0))
    case Reset(now) =>
      r.(core := ResetStep(r.core, now), clock := now)
  }

  function Play(cfg: Config, r: Run, events: seq<Event>): Run {
    if events == [] then r else Step(cfg, Play(cfg, r, events[..|events| - 1]), events[|events| - 1])
  }

  /** The clock never runs backwards. */
  ghost predicate Timed(start: int, events: seq<Event>) {
    && (forall i :: 0 <= i < |events| ==> start <= events[i].now)
    && (forall i, j :: 0 <= i < j < |events| ==> events[i].now <= events[j].now)
  }

  lemma {:induction false} PlayConcat(cfg: Config, r: Run, a: seq<Event>, b: seq<Event>)
    ensures Play(cfg, r, a + b) == Play(cfg, Play(cfg, r, a), b)
  {
    if b == [] {
      assert a + b == a;
    } else {
      var m := |b| - 1;
      assert (a + b)[..|a| + m] == a + b[..m];
      PlayConcat(cfg, r, a, b[..m]);
    }
  }

  lemma {:induction false} PlayLast(cfg: Config, r: Run, es: seq<Event>, e: Event)
    ensures Play(cfg, r, es + [e]) == Step(cfg, Play(cfg, r, es), e)
  {
    assert (es + [e])[..|es|] == es;
  }

  lemma {:induction false} PlayTwo(cfg: Config, r: Run, es: seq<Event>, all: seq<Event>, a: Event, b: Event)
    requires all == es + [a, b]
    ensures Play(cfg, r, all) == Step(cfg, Step(cfg, Play(cfg, r, es), a), b)
  {
    var most := all[..|all| - 1];
    assert most[..|most| - 1] == es;
  }

  lemma {:induction false} PlayFirst(cfg: Config, r: Run, events: seq<Event>)
    requires events != []
    ensures Play(cfg, r, events) == Play(cfg, Step(cfg, r, events[0]), events[1..])
  {
    assert events == [events[0]] + events[1..];
    PlayConcat(cfg, r, [events[0]], events[1..]);
    assert [events[0]][..0] == [];
    assert Play(cfg, r, [events[0]]) == Step(cfg, r, events[0]);
  }

  // ---------------------------------------------------------------- invariant

  /** The last n results are failures recorded inside the current window. */
  ghost predicate FailingTail(cfg: Config, r: Run, n: int) {
    && 0 <= n <= |r.log|
    && (forall i :: |r.log| - n <= i < |r.log| ==>
          !r.log[i].ok && r.core.windowStart <= r.log[i].at <= r.core.windowStart + cfg.window)
  }

  ghost predicate Inv(cfg: Config, r: Run) {
    && r.core.windowStart <= r.clock
    && (forall id :: id in r.probes ==> id < r.calls)
    && (r.core.state.Closed? ==> r.core.failures < cfg.failureThreshold && FailingTail(cfg, r, r.core.failures))
    && (r.core.state.HalfOpen? ==>
          && 0 <= r.core.inFlight <= cfg.maxHalfOpen
          && 0 <= r.core.successes < cfg.successThreshold
          && r.episode <= r.core.inFlight + r.core.successes
          && r.core.inFlight <= |r.probes| <= r.core.inFlight + r.strangers)
  }

  /** How a step moves the set of unreported probes. */
  lemma {:induction false} ProbeCounts(probes: set<nat>, id: nat)
    ensures |probes - {id}| == |probes| - (if id in probes then 1 else 0)
    ensures |probes + {id}| == |probes| + (if id in probes then 0 else 1)
  {
    if id in probes {
      assert probes + {id} == probes;
    } else {
      assert probes - {id} == probes;
    }
  }

  lemma {:induction false} AllowKeepsInv(cfg: Config, r: Run, now: int)
    requires Usable(cfg) && Inv(cfg, r) && r.clock <= now
    ensures Inv(cfg, Step(cfg, r, Allow(now)))
  {
    ProbeCounts(r.probes, r.calls);
  }

  lemma {:induction false} SuccessKeepsInv(cfg: Config, r: Run, id: nat, now: int)
    requires Usable(cfg) && Inv(cfg, r) && r.clock <= now
    ensures Inv(cfg, Step(cfg, r, Report(id, true, now)))
  {
    ProbeCounts(r.probes, id);
  }

  lemma {:induction false} StepKeepsInv(cfg: Config, r: Run, e: Event)
    requires Usable(cfg) && Inv(cfg, r) && r.clock <= e.now
    ensures Inv(cfg, Step(cfg, r, e))
  {
    match e
    case Allow(now) => AllowKeepsInv(cfg, r, now);
    case Report(id, ok, now) =>
      if ok {
        SuccessKeepsInv(cfg, r, id, now);
      }
    case Reset(now) =>
  }

  lemma {:induction false} PlayKeepsInv(cfg: Config, start: int, events: seq<Event>)
    requires Usable(cfg) && Timed(start, events)
    ensures Inv(cfg, Play(cfg, Begin(start), events))
    ensures Play(cfg, Begin(start), events).clock == if events == [] then start else events[|events| - 1].now
  {
    if events == [] {
    } else {
      var m := |events| - 1;
      PlayKeepsInv(cfg, start, events[..m]);
      StepKeepsInv(cfg, Play(cfg, Begin(start), events[..m]), events[m]);
    }
  }

  // ---------------------------------------------------------------- histories

  /** rs lists the states of a run, rs[k] being the one after the first k events. */
  ghost predicate IsHistory(cfg: Config, start: int, events: seq<Event>, rs: seq<Run>) {
    && |rs| == |events| + 1 && rs[0] == Begin(start)
    && (forall k :: 0 <= k < |events| ==> rs[k + 1] == Step(cfg, rs[k], events[k]))
  }

  /** Every run has its history, and only that one. */
  lemma {:induction false} HistoryIsPlay(cfg: Config, start: int, events: seq<Event>, rs: seq<Run>, k: nat)
    requires IsHistory(cfg, start, events, rs) && k <= |events|
    ensures rs[k] == Play(cfg, Begin(start), events[..k])
  {
    if k == 0 {
    } else {
      HistoryIsPlay(cfg, start, events, rs, k - 1);
      assert events[..k][..k - 1] == events[..k - 1];
    }
  }

  lemma {:induction false} HistoryOf(cfg: Config, start: int, events: seq<Event>) returns (rs: seq<Run>)
    ensures IsHistory(cfg, start, events, rs)
  {
    if events == [] {
      rs := [Begin(start)];
    } else {
      var m := |events| - 1;
      var most := HistoryOf(cfg, start, events[..m]);
      rs := most + [Step(cfg, most[m], events[m])];
      assert forall k :: 0 <= k <= m ==> rs[k] == most[k];
      forall k | 0 <= k < |events| ensures rs[k + 1] == Step(cfg, rs[k], events[k]) {
        if k < m {
          assert events[..m][k] == events[k] && rs[k + 1] == most[k + 1];
        }
      }
    }
  }

  lemma {:induction false} HistoryKeepsInv(cfg: Config, start: int, events: seq<Event>, rs: seq<Run>, k: nat)
    requires Usable(cfg) && Timed(start, events) && IsHistory(cfg, start, events, rs) && k <= |events|
    ensures Inv(cfg, rs[k]) && rs[k].clock == if k == 0 then start else events[k - 1].now
  {
    if k == 0 {
    } else {
      HistoryKeepsInv(cfg, start, events, rs, k - 1);
      assert rs[k] == Step(cfg, rs[k - 1], events[k - 1]);
      StepKeepsInv(cfg, rs[k - 1], events[k - 1]);
    }
  }

  // ---------------------------------------------------------------- half-open admission control

  /** The breaker is half-open in the states i + 1, ..., j. */
  ghost predicate HalfOpenFor(rs: seq<Run>, i: nat, j: nat)
    requires j < |rs|
  {
    forall k :: i < k <= j ==> rs[k].core.state.HalfOpen?
  }

  /** How many of events i, ..., j - 1 are Allow calls that were admitted. */
  function Admitted(cfg: Config, events: seq<Event>, rs: seq<Run>, i: nat, j: nat): nat
    requires i <= j <= |events| && |rs| == |events| + 1
    decreases j
  {
    if i == j then 0
    else
      Admitted(cfg, events, rs, i, j - 1) +
      (if events[j - 1].Allow? && AllowStep(cfg, rs[j - 1].core, events[j - 1].now).admitted then 1 else 0)
  }

  lemma {:induction false} EpisodeCounts(cfg: Config, start: int, events: seq<Event>, rs: seq<Run>, i: nat, j: nat)
    requires IsHistory(cfg, start, events, rs) && i < j <= |events| && HalfOpenFor(rs, i, j)
    ensures Admitted(cfg, events, rs, i, j) <= rs[j].episode
    decreases j
  {
    assert rs[j] == Step(cfg, rs[j - 1], events[j - 1]);
    if j == i + 1 {
      assert Admitted(cfg, events, rs, i, i) == 0;
    } else {
      assert rs[j - 1].core.state.HalfOpen?;
      EpisodeCounts(cfg, start, events, rs, i, j - 1);
    }
  }

  /** Whatever callers and stale reports do, one half-open episode (the events i to j - 1 after each of
      which the breaker is half-open) admits at most MaxHalfOpenRequests + SuccessThreshold - 1. */
  lemma {:induction false} EpisodeAdmissionBound(cfg: Config, start: int, events: seq<Event>, rs: seq<Run>, i: nat,
                                                 j: nat)
    requires Usable(cfg) && Timed(start, events) && IsHistory(cfg, start, events, rs)
    requires i <= j <= |events| && HalfOpenFor(rs, i, j)
    ensures Admitted(cfg, events, rs, i, j) <= cfg.maxHalfOpen + cfg.successThreshold - 1
  {
    if i < j {
      EpisodeCounts(cfg, start, events, rs, i, j);
      HistoryKeepsInv(cfg, start, events, rs, j);
    }
  }

  /** The probes not yet reported never exceed the cap by more than the number of foreign successes. */
  lemma {:induction false} ProbesInFlight(cfg: Config, start: int, events: seq<Event>)
    requires Usable(cfg) && Timed(start, events)
    requires Play(cfg, Begin(start), events).core.state.HalfOpen?
    ensures var r := Play(cfg, Begin(start), events);
      && |r.probes| <= cfg.maxHalfOpen + r.strangers
      && (r.strangers == 0 ==> r.core.inFlight == |r.probes| <= cfg.maxHalfOpen)
  {
    PlayKeepsInv(cfg, start, events);
  }

  /** inFlight is the number of unreported probes. */
  ghost predicate CountsProbes(r: Run) {
    r.core.inFlight == |r.probes|
  }

  /** A success from a request that is not an unreported probe of the episode, while a slot is taken. */
  predicate FreesForeignSlot(r: Run, e: Event) {
    e.Report? && e.ok && e.id !in r.probes && r.core.inFlight > 0
  }

  /** The one event that makes inFlight lose count. */
  lemma {:induction false} StepCountsIff(cfg: Config, r: Run, e: Event)
    requires Inv(cfg, r) && r.core.state.HalfOpen? && CountsProbes(r)
    requires Step(cfg, r, e).core.state.HalfOpen?
    ensures CountsProbes(Step(cfg, r, e)) <==> !FreesForeignSlot(r, e)
  {
    if e.Allow? {
      ProbeCounts(r.probes, r.calls);
    } else {
      SuccessCountsIff(cfg, r, e.id, e.now);
    }
  }

  lemma {:induction false} SuccessCountsIff(cfg: Config, r: Run, id: nat, now: int)
    requires r.core.state.HalfOpen? && CountsProbes(r) && Step(cfg, r, Report(id, true, now)).core.state.HalfOpen?
    ensures CountsProbes(Step(cfg, r, Report(id, true, now))) <==> !FreesForeignSlot(r, Report(id, true, now))
  {
    ProbeCounts(r.probes, id);
  }

  ghost predicate CountsThroughout(rs: seq<Run>, i: nat, j: nat)
    requires j < |rs|
  {
    forall k :: i < k <= j ==> CountsProbes(rs[k])
  }

  ghost predicate NoForeignSlot(events: seq<Event>, rs: seq<Run>, i: nat, j: nat)
    requires j <= |events| && |rs| == |events| + 1
  {
    forall k :: i < k < j ==> !FreesForeignSlot(rs[k], events[k])
  }

  lemma {:induction false} EpisodeNext(cfg: Config, start: int, events: seq<Event>, rs: seq<Run>, k: nat)
    requires Usable(cfg) && Timed(start, events) && IsHistory(cfg, start, events, rs) && k < |events|
    requires rs[k].core.state.HalfOpen? && rs[k + 1].core.state.HalfOpen? && CountsProbes(rs[k])
    ensures CountsProbes(rs[k + 1]) <==> !FreesForeignSlot(rs[k], events[k])
  {
    HistoryKeepsInv(cfg, start, events, rs, k);
    StepCountsIff(cfg, rs[k], events[k]);
  }

  lemma {:induction false} CountsUpTo(cfg: Config, start: int, events: seq<Event>, rs: seq<Run>, i: nat, j: nat, k: nat)
    requires Usable(cfg) && Timed(start, events) && IsHistory(cfg, start, events, rs)
    requires i < k <= j <= |events| && rs[i].core.state.Open? && HalfOpenFor(rs, i, j)
    requires NoForeignSlot(events, rs, i, j)
    ensures CountsProbes(rs[k])
  {
    if k == i + 1 {
      assert rs[k] == Step(cfg, rs[i], events[i]);
    } else {
      CountsUpTo(cfg, start, events, rs, i, j, k - 1);
      EpisodeNext(cfg, start, events, rs, k - 1);
    }
  }

  /** Exactly when inFlight is the number of unreported probes: from the event i that opens an episode,
      it is so throughout if and only if no success of a request that is not one of them arrives while
      a slot is taken. */
  lemma {:induction false} EpisodeCountsIff(cfg: Config, start: int, events: seq<Event>, rs: seq<Run>, i: nat, j: nat)
    requires Usable(cfg) && Timed(start, events) && IsHistory(cfg, start, events, rs)
    requires i < j <= |events| && rs[i].core.state.Open? && HalfOpenFor(rs, i, j)
    ensures CountsThroughout(rs, i, j) <==> NoForeignSlot(events, rs, i, j)
  {
    if CountsThroughout(rs, i, j) {
      forall k | i < k < j ensures !FreesForeignSlot(rs[k], events[k]) {
        assert CountsProbes(rs[k + 1]);
        EpisodeNext(cfg, start, events, rs, k);
      }
    }
    if NoForeignSlot(events, rs, i, j) {
      forall k | i < k <= j ensures CountsProbes(rs[k]) {
        CountsUpTo(cfg, start, events, rs, i, j, k);
      }
    }
  }

  lemma {:induction false} PlayMore(cfg: Config, r: Run, events: seq<Event>, e: Event) returns (more: seq<Event>)
    ensures more == events + [e] && Play(cfg, r, more) == Step(cfg, Play(cfg, r, events), e)
  {
    more := events + [e];
    PlayLast(cfg, r, events, e);
  }

  /** The hypothesis is needed: with a cap of one, a success from a request admitted while the
      circuit was closed frees the slot, and a second probe is in flight beside the first. */
  lemma {:induction false} StrangerFreesSlot(cfg: Config) returns (events: seq<Event>)
    requires cfg == Config(1, 2, 1, 10, 10)
    ensures Timed(0, events)
    ensures Play(cfg, Begin(0), events).core.state.HalfOpen?
    ensures |Play(cfg, Begin(0), events).probes| == 2 > cfg.maxHalfOpen
  {
    var r := Begin(0);
    var es := PlayMore(cfg, r, [], Allow(0));
    es := PlayMore(cfg, r, es, Allow(0));
    es := PlayMore(cfg, r, es, Report(0, false, 1));
    es := PlayMore(cfg, r, es, Allow(11));
    es := PlayMore(cfg, r, es, Report(1, true, 12));
    assert Play(cfg, r, es).probes == {2};
    events := PlayMore(cfg, r, es, Allow(12));
    assert Play(cfg, r, events).probes == {2, 3};
  }

  /** A half-open state whose unreported probes are the requests lo, ..., calls - 1, and no others reported. */
  ghost predicate Probing(r: Run, lo: nat) {
    && r.core.state.HalfOpen? && r.strangers == 0
    && (forall id: nat :: id in r.probes <==> lo <= id < r.calls)
  }

  ghost predicate AllAt(events: seq<Event>, now: int) {
    forall i :: 0 <= i < |events| ==> events[i].now == now
  }

  /** n Allow calls fill n slots. */
  lemma {:induction false} KnocksFill(cfg: Config, r: Run, n: nat, first: nat, now: int)
    returns (es: seq<Event>, last: Run)
    requires Probing(r, first) && first <= r.calls && r.core.inFlight + n <= cfg.maxHalfOpen
    ensures last == Play(cfg, r, es) && AllAt(es, now)
    ensures last.core == r.core.(inFlight := r.core.inFlight + n) && last.episode == r.episode + n
    ensures last.calls == r.calls + n && Probing(last, first)
  {
    if n == 0 {
      es, last := [], r;
    } else {
      var most, s := KnocksFill(cfg, r, n - 1, first, now);
      PlayLast(cfg, r, most, Allow(now));
      es, last := most + [Allow(now)], Step(cfg, s, Allow(now));
    }
  }

  /** One round: probe lo reports a success, and its slot goes to the next caller. */
  lemma RoundAdmits(cfg: Config, r: Run, lo: nat, now: int)
    requires Probing(r, lo) && lo < r.calls && 1 <= r.core.inFlight == cfg.maxHalfOpen
    requires r.core.successes + 1 < cfg.successThreshold
    ensures var s := Step(cfg, Step(cfg, r, Report(lo, true, now)), Allow(now));
      && s.core == r.core.(successes := r.core.successes + 1) && s.episode == r.episode + 1
      && s.calls == r.calls + 1 && Probing(s, lo + 1)
  {
  }

  /** n rounds, in which the probes report in the order in which they were admitted. */
  lemma {:induction false} RoundsAdmit(cfg: Config, r: Run, n: nat, first: nat, now: int)
    returns (es: seq<Event>, last: Run)
    requires Probing(r, first) && first < r.calls && 1 <= r.core.inFlight == cfg.maxHalfOpen
    requires r.core.successes + n < cfg.successThreshold
    ensures last == Play(cfg, r, es) && AllAt(es, now)
    ensures last.core == r.core.(successes := r.core.successes + n) && last.episode == r.episode + n
    ensures last.calls == r.calls + n && Probing(last, first + n)
  {
    if n == 0 {
      es, last := [], r;
    } else {
      var most, s := RoundsAdmit(cfg, r, n - 1, first, now);
      var report, knock := Report(first + n - 1, true, now), Allow(now);
      RoundAdmits(cfg, s, first + n - 1, now);
      es, last := most + [report, knock], Step(cfg, Step(cfg, s, report), knock);
      PlayTwo(cfg, r, most, es, report, knock);
    }
  }

  /** Events at one time after which the breaker is half-open and the episode has admitted n requests,
      while every success came from a probe of the episode that had not reported before. */
  ghost predicate Attains(cfg: Config, r: Run, now: int, events: seq<Event>, n: int) {
    && AllAt(events, now)
    && Play(cfg, r, events).core.state.HalfOpen? && Play(cfg, r, events).episode == n
    && Play(cfg, r, events).strangers == 0
  }

  lemma {:induction false} Saturates(cfg: Config, r: Run, first: nat, now: int) returns (events: seq<Event>, last: Run)
    requires Usable(cfg) && Probing(r, first) && first < r.calls && r.core.inFlight == 1 && r.core.successes == 0
    ensures last == Play(cfg, r, events) && AllAt(events, now)
    ensures last.core.state.HalfOpen? && last.strangers == 0
    ensures last.episode == r.episode + cfg.maxHalfOpen + cfg.successThreshold - 2
  {
    var fill, full := KnocksFill(cfg, r, cfg.maxHalfOpen - 1, first, now);
    var turn, end := RoundsAdmit(cfg, full, cfg.successThreshold - 1, first, now);
    PlayConcat(cfg, r, fill, turn);
    events, last := fill + turn, end;
  }

  /** The bound is tight for every configuration and for callers that each report once: from the first
      probe of an episode there is a continuation, still half-open, that has admitted exactly that many. */
  lemma {:induction false} EpisodeBoundIsTight(cfg: Config, r: Run, now: int, first: Run, n: int)
    requires Usable(cfg) && r.core.state.Open? && now - r.core.lastFailure >= cfg.timeout
    requires first == Step(cfg, r, Allow(now)) && n == cfg.maxHalfOpen + cfg.successThreshold - 1
    ensures exists events :: Attains(cfg, first, now, events, n)
  {
    assert Probing(first, r.calls);
    var events, last := Saturates(cfg, first, r.calls, now);
    assert Attains(cfg, first, now, events, n);
  }

  // ---------------------------------------------------------------- tripping

  /** Sound: the breaker goes from closed to open only on a failure that completes a tail of
      FailureThreshold failures, with no success between them and no more than Window across them. */
  lemma {:induction false} TripIsSound(cfg: Config, start: int, events: seq<Event>, rs: seq<Run>, k: nat)
    requires Usable(cfg) && Timed(start, events) && IsHistory(cfg, start, events, rs) && k < |events|
    requires rs[k].core.state.Closed? && rs[k + 1].core.state.Open?
    ensures var log := rs[k + 1].log;
      && cfg.failureThreshold <= |log|
      && (forall i :: |log| - cfg.failureThreshold <= i < |log| ==> !log[i].ok)
      && log[|log| - 1].at - log[|log| - cfg.failureThreshold].at <= cfg.window
      && log[|log| - 1].at == events[k].now
  {
    HistoryKeepsInv(cfg, start, events, rs, k);
    assert rs[k + 1] == Step(cfg, rs[k], events[k]);
  }

  /** The number of reports among the events. */
  function Reports(events: seq<Event>): nat {
    if events == [] then 0 else (if events[0].Report? then 1 else 0) + Reports(events[1..])
  }

  /** Only Allow calls and failure reports, the reports all within [lo, hi]. */
  ghost predicate OnlyFailures(events: seq<Event>, lo: int, hi: int) {
    forall i :: 0 <= i < |events| ==>
      events[i].Allow? || (events[i].Report? && !events[i].ok && lo <= events[i].now <= hi)
  }

  ghost predicate Opens(cfg: Config, r: Run, events: seq<Event>) {
    exists k: nat :: k <= |events| && Play(cfg, r, events[..k]).core.state.Open?
  }

  lemma {:induction false} OpensAtOnce(cfg: Config, r: Run, events: seq<Event>)
    ensures r.core.state.Open? ==> Opens(cfg, r, events)
    ensures events == [] && !r.core.state.Open? ==> !Opens(cfg, r, events)
  {
    assert Play(cfg, r, events[..0]) == r;
  }

  /** Whether the circuit opens, seen from one event later. */
  lemma {:induction false} OpensNext(cfg: Config, r: Run, events: seq<Event>)
    requires events != [] && !r.core.state.Open?
    ensures Opens(cfg, r, events) <==> Opens(cfg, Step(cfg, r, events[0]), events[1..])
  {
    var next := Step(cfg, r, events[0]);
    forall k: nat | k < |events| ensures Play(cfg, r, events[..k + 1]) == Play(cfg, next, events[1..][..k]) {
      assert events[..k + 1][1..] == events[1..][..k];
      PlayFirst(cfg, r, events[..k + 1]);
    }
    if Opens(cfg, r, events) {
      var k: nat :| k <= |events| && Play(cfg, r, events[..k]).core.state.Open?;
      assert k != 0;
      assert Play(cfg, next, events[1..][..k - 1]).core.state.Open?;
    }
    if Opens(cfg, next, events[1..]) {
      var k: nat :| k <= |events[1..]| && Play(cfg, next, events[1..][..k]).core.state.Open?;
      assert Play(cfg, r, events[..k + 1]).core.state.Open?;
    }
  }

  /** Inside one window, failures open the circuit exactly when they reach the threshold. */
  lemma {:induction false} WindowFillsIff(cfg: Config, r: Run, events: seq<Event>, lo: int, hi: int)
    requires r.core.state.Closed? && r.core.failures < cfg.failureThreshold
    requires OnlyFailures(events, lo, hi) && hi <= r.core.windowStart + cfg.window
    ensures Opens(cfg, r, events) <==> r.core.failures + Reports(events) >= cfg.failureThreshold
    decreases |events|
  {
    OpensAtOnce(cfg, r, events);
    if events == [] {
    } else {
      var next := Step(cfg, r, events[0]);
      OpensNext(cfg, r, events);
      if next.core.state.Open? {
        OpensAtOnce(cfg, next, events[1..]);
      } else {
        WindowFillsIff(cfg, next, events[1..], lo, hi);
      }
    }
  }

  /** The number of reports among the events that come no later than limit. */
  function Early(events: seq<Event>, limit: int): nat {
    if events == [] then 0
    else (if events[0].Report? && events[0].now <= limit then 1 else 0) + Early(events[1..], limit)
  }

  lemma {:induction false} NoneEarly(events: seq<Event>, limit: int)
    requires forall i :: 0 <= i < |events| ==> events[i].now > limit
    ensures Early(events, limit) == 0
  {
    if events == [] {
    } else {
      NoneEarly(events[1..], limit);
    }
  }

  ghost predicate InOrder(events: seq<Event>) {
    forall i, j :: 0 <= i < j < |events| ==> events[i].now <= events[j].now
  }

  /** The first failure past the window starts a new one, which all the others fall into. */
  lemma {:induction false} RestartTripsIff(cfg: Config, r: Run, events: seq<Event>, lo: int)
    requires r.core.state.Closed? && OnlyFailures(events, lo, lo + cfg.window) && cfg.failureThreshold >= 1
    requires events != [] && events[0].Report? && events[0].now > r.core.windowStart + cfg.window
    ensures Opens(cfg, r, events) <==> Reports(events) >= cfg.failureThreshold
  {
    var next := Step(cfg, r, events[0]);
    OpensNext(cfg, r, events);
    if next.core.state.Open? {
      OpensAtOnce(cfg, next, events[1..]);
    } else {
      WindowFillsIff(cfg, next, events[1..], lo, lo + cfg.window);
    }
  }

  /** Exactly when consecutive failures within a span of Window open the circuit: when those that
      fall into the current window complete it, or those that come after it are enough by themselves. */
  lemma {:induction false} TripIff(cfg: Config, r: Run, events: seq<Event>, lo: int)
    requires r.core.state.Closed? && 0 <= r.core.failures < cfg.failureThreshold
    requires OnlyFailures(events, lo, lo + cfg.window) && InOrder(events)
    ensures var early := Early(events, r.core.windowStart + cfg.window);
      Opens(cfg, r, events) <==>
      r.core.failures + early >= cfg.failureThreshold || Reports(events) - early >= cfg.failureThreshold
    decreases |events|
  {
    var limit := r.core.windowStart + cfg.window;
    OpensAtOnce(cfg, r, events);
    if events == [] {
    } else if events[0].Report? && events[0].now > limit {
      NoneEarly(events, limit);
      RestartTripsIff(cfg, r, events, lo);
    } else {
      var next := Step(cfg, r, events[0]);
      OpensNext(cfg, r, events);
      if next.core.state.Open? {
        OpensAtOnce(cfg, next, events[1..]);
      } else {
        TripIff(cfg, next, events[1..], lo);
      }
    }
  }

  lemma {:induction false} TripIffOnRuns(cfg: Config, start: int, before: seq<Event>, events: seq<Event>, lo: int)
    requires Usable(cfg) && Timed(start, before)
    requires Play(cfg, Begin(start), before).core.state.Closed?
    requires OnlyFailures(events, lo, lo + cfg.window) && InOrder(events)
    ensures var r := Play(cfg, Begin(start), before);
      var early := Early(events, r.core.windowStart + cfg.window);
      Opens(cfg, r, events) <==>
      r.core.failures + early >= cfg.failureThreshold || Reports(events) - early >= cfg.failureThreshold
  {
    PlayKeepsInv(cfg, start, before);
    TripIff(cfg, Play(cfg, Begin(start), before), events, lo);
  }

  /** So 2 * FailureThreshold - 1 consecutive failures within a span of Window always open the
      circuit, wherever its window happened to start. */
  lemma {:induction false} TripIsComplete(cfg: Config, r: Run, events: seq<Event>, lo: int)
    requires r.core.state.Closed? && 0 <= r.core.failures < cfg.failureThreshold
    requires OnlyFailures(events, lo, lo + cfg.window)
    requires Reports(events) >= 2 * cfg.failureThreshold - 1 - r.core.failures
    ensures Opens(cfg, r, events)
    decreases |events|
  {
    var next := Step(cfg, r, events[0]);
    if events[0].Report? && events[0].now - r.core.windowStart > cfg.window {
      RestartTripsIff(cfg, r, events, lo);
    } else {
      OpensNext(cfg, r, events);
      OpensAtOnce(cfg, next, events[1..]);
      if !next.core.state.Open? {
        TripIsComplete(cfg, next, events[1..], lo);
      }
    }
  }

  lemma {:induction false} TripIsCompleteOnRuns(cfg: Config, start: int, before: seq<Event>, events: seq<Event>,
                                                lo: int)
    requires Usable(cfg) && Timed(start, before)
    requires Play(cfg, Begin(start), before).core.state.Closed?
    requires OnlyFailures(events, lo, lo + cfg.window)
    requires Reports(events) >= 2 * cfg.failureThreshold - 1
    ensures Opens(cfg, Play(cfg, Begin(start), before), events)
  {
    PlayKeepsInv(cfg, start, before);
    TripIsComplete(cfg, Play(cfg, Begin(start), before), events, lo);
  }

  function Failures(n: nat, now: int): (es: seq<Event>)
    ensures |es| == n && forall i :: 0 <= i < n ==> es[i] == Report(0, false, now)
  {
    if n == 0 then [] else Failures(n - 1, now) + [Report(0, false, now)]
  }

  lemma {:induction false} FailuresAddUp(cfg: Config, r: Run, n: nat, now: int)
    requires r.core.state.Closed? && now - r.core.windowStart <= cfg.window
    requires 0 <= r.core.failures && r.core.failures + n < cfg.failureThreshold
    ensures var s := Play(cfg, r, Failures(n, now)).core;
      s.state.Closed? && s.failures == r.core.failures + n && s.windowStart == r.core.windowStart
  {
    if n == 0 {
    } else {
      var most := Failures(n - 1, now);
      FailuresAddUp(cfg, r, n - 1, now);
      PlayLast(cfg, r, most, Report(0, false, now));
    }
  }

  lemma {:induction false} LateFailuresRestart(cfg: Config, r: Run, late: seq<Event>, n: nat, now: int)
    requires Usable(cfg) && r.core.state.Closed? && now - r.core.windowStart > cfg.window
    requires 1 <= n < cfg.failureThreshold && late == Failures(n, now)
    ensures Play(cfg, r, late).core.state.Closed?
  {
    PlayFirst(cfg, r, late);
    assert late[1..] == Failures(n - 1, now);
    FailuresAddUp(cfg, Step(cfg, r, late[0]), n - 1, now);
  }

  /** The window tumbles: for every threshold of at least two, 2 * FailureThreshold - 2 consecutive
      failures within one time unit can leave the circuit closed, so no smaller count is enough. */
  lemma {:induction false} TwoThresholdsMinusTwoMayNotTrip(cfg: Config, start: int)
    requires Usable(cfg) && cfg.failureThreshold >= 2
    ensures var t, n := start + cfg.window, cfg.failureThreshold - 1;
      && Timed(start, Failures(n, t) + Failures(n, t + 1))
      && Play(cfg, Begin(start), Failures(n, t) + Failures(n, t + 1)).core.state.Closed?
  {
    var t, n := start + cfg.window, cfg.failureThreshold - 1;
    var early := Play(cfg, Begin(start), Failures(n, t));
    FailuresAddUp(cfg, Begin(start), n, t);
    PlayConcat(cfg, Begin(start), Failures(n, t), Failures(n, t + 1));
    LateFailuresRestart(cfg, early, Failures(n, t + 1), n, t + 1);
  }

  // ---------------------------------------------------------------- open is quiet, and recoverable

  /** Before the timeout is over nothing but Reset moves an open breaker, and nobody is admitted. */
  lemma {:induction false} OpenIsQuiet(cfg: Config, r: Run, events: seq<Event>)
    requires r.core.state.Open?
    requires forall i :: 0 <= i < |events| ==> !events[i].Reset? && events[i].now < r.core.lastFailure + cfg.timeout
    ensures Play(cfg, r, events).core == r.core && Play(cfg, r, events).admissions == r.admissions
  {
    if events == [] {
    } else {
      OpenIsQuiet(cfg, r, events[..|events| - 1]);
    }
  }

  /** After any trip, at the time T of the event that caused it, no Allow before T + Timeout passes. */
  lemma {:induction false} QuietAfterTrip(cfg: Config, r: Run, trip: Event, events: seq<Event>)
    requires !r.core.state.Open? && Step(cfg, r, trip).core.state.Open?
    requires forall i :: 0 <= i < |events| ==> !events[i].Reset? && events[i].now < trip.now + cfg.timeout
    ensures Play(cfg, Step(cfg, r, trip), events).core.state.Open?
    ensures Play(cfg, Step(cfg, r, trip), events).admissions == r.admissions
  {
    OpenIsQuiet(cfg, Step(cfg, r, trip), events);
  }

  /** One request at a time: an Allow call and then its success, at the given pairs of times. */
  function Sequential(times: seq<(int, int)>, first: nat): seq<Event> {
    if times == [] then []
    else [Allow(times[0].0), Report(first, true, times[0].1)] + Sequential(times[1..], first + 1)
  }

  lemma {:induction false} SequentialPlays(cfg: Config, r: Run, times: seq<(int, int)>, first: nat)
    requires times != []
    ensures Play(cfg, r, Sequential(times, first))
         == Play(cfg, Step(cfg, Step(cfg, r, Allow(times[0].0)), Report(first, true, times[0].1)),
                 Sequential(times[1..], first + 1))
  {
    var es := Sequential(times, first);
    PlayFirst(cfg, r, es);
    PlayFirst(cfg, Step(cfg, r, es[0]), es[1..]);
    assert es[1..][1..] == Sequential(times[1..], first + 1);
  }

  lemma {:induction false} ProbesClose(cfg: Config, r: Run, times: seq<(int, int)>, first: nat)
    requires Usable(cfg) && r.core.state.HalfOpen? && r.core.inFlight == 0
    requires 0 <= r.core.successes && r.core.successes + |times| == cfg.successThreshold && times != []
    ensures var s := Play(cfg, r, Sequential(times, first));
      s.core.state.Closed? && s.core.failures == 0 && s.admissions == r.admissions + |times|
    decreases |times|
  {
    SequentialPlays(cfg, r, times, first);
    if |times| > 1 {
      var next := Step(cfg, Step(cfg, r, Allow(times[0].0)), Report(first, true, times[0].1));
      ProbesClose(cfg, next, times[1..], first + 1);
    } else {
      assert times[1..] == [];
    }
  }

  /** Past the timeout, SuccessThreshold requests made one after the other are all admitted, and
      when each succeeds they close the circuit with a clean failure count. */
  lemma {:induction false} OpenRecovers(cfg: Config, r: Run, times: seq<(int, int)>, first: nat)
    requires Usable(cfg) && r.core.state.Open? && |times| == cfg.successThreshold
    requires times[0].0 - r.core.lastFailure >= cfg.timeout
    ensures var s := Play(cfg, r, Sequential(times, first));
      s.core.state.Closed? && s.core.failures == 0 && s.admissions == r.admissions + |times|
  {
    SequentialPlays(cfg, r, times, first);
    var next := Step(cfg, Step(cfg, r, Allow(times[0].0)), Report(first, true, times[0].1));
    if |times| > 1 {
      ProbesClose(cfg, next, times[1..], first + 1);
    } else {
      assert times[1..] == [];
    }
  }

  // ---------------------------------------------------------------- how a half-open episode ends

  /** A failure reported in half-open opens the circuit again, and until its time plus Timeout nobody
      passes and only a Reset leaves that state. */
  lemma {:induction false} FailedProbeReopens(cfg: Config, start: int, events: seq<Event>, rs: seq<Run>, k: nat, j: nat)
    requires IsHistory(cfg, start, events, rs) && k < j <= |events|
    requires rs[k].core.state.HalfOpen? && events[k].Report? && !events[k].ok
    requires forall m :: k < m < j ==> !events[m].Reset? && events[m].now < events[k].now + cfg.timeout
    ensures rs[j].core.state.Open? && rs[j].core.lastFailure == events[k].now && rs[j].admissions == rs[k].admissions
    decreases j
  {
    assert rs[j] == Step(cfg, rs[j - 1], events[j - 1]);
    if j == k + 1 {
    } else {
      FailedProbeReopens(cfg, start, events, rs, k, j - 1);
    }
  }

  /** How many of events i, ..., j - 1 report a success. */
  function Successes(events: seq<Event>, i: nat, j: nat): nat
    requires i <= j <= |events|
  {
    if i == j then 0 else Successes(events, i, j - 1) + (if events[j - 1].Report? && events[j - 1].ok then 1 else 0)
  }

  lemma {:induction false} CountsSuccesses(cfg: Config, start: int, events: seq<Event>, rs: seq<Run>, i: nat, k: nat)
    requires IsHistory(cfg, start, events, rs) && i < k <= |events|
    requires rs[i].core.state.Open? && HalfOpenFor(rs, i, k)
    ensures rs[k].core.successes == Successes(events, i + 1, k)
    decreases k
  {
    assert rs[k] == Step(cfg, rs[k - 1], events[k - 1]);
    if k == i + 1 {
    } else {
      assert rs[k - 1].core.state.HalfOpen?;
      CountsSuccesses(cfg, start, events, rs, i, k - 1);
    }
  }

  /** An episode that event i opened closes the circuit with event k if and only if that is a Reset or the
      success that makes SuccessThreshold of them since the episode began; the circuit then starts
      over, with no failures and a window from that moment. It reopens if and only if that is a failure.
      Either way no slot stays taken. */
  lemma {:induction false} EpisodeEndsIff(cfg: Config, start: int, events: seq<Event>, rs: seq<Run>, i: nat, k: nat)
    requires Usable(cfg) && Timed(start, events) && IsHistory(cfg, start, events, rs)
    requires i < k < |events| && rs[i].core.state.Open? && HalfOpenFor(rs, i, k)
    ensures rs[k + 1].core.state.Closed? <==>
              events[k].Reset? ||
              (events[k].Report? && events[k].ok && Successes(events, i + 1, k + 1) == cfg.successThreshold)
    ensures rs[k + 1].core.state.Open? <==> events[k].Report? && !events[k].ok
    ensures rs[k + 1].core.state.Closed? ==>
              rs[k + 1].core.failures == 0 && rs[k + 1].core.windowStart == events[k].now
    ensures !rs[k + 1].core.state.HalfOpen? ==> rs[k + 1].core.successes == rs[k + 1].core.inFlight == 0
  {
    HistoryKeepsInv(cfg, start, events, rs, k);
    CountsSuccesses(cfg, start, events, rs, i, k);
    assert rs[k].core.state.HalfOpen?;
    assert rs[k + 1] == Step(cfg, rs[k], events[k]);
  }

  /** A closed breaker admits every caller and is not moved by it. */
  lemma {:induction false} ClosedAdmits(cfg: Config, start: int, events: seq<Event>, rs: seq<Run>, k: nat)
    requires IsHistory(cfg, start, events, rs) && k < |events| && rs[k].core.state.Closed? && events[k].Allow?
    ensures rs[k + 1].core == rs[k].core && rs[k + 1].admissions == rs[k].admissions + 1
  {
    assert rs[k + 1] == Step(cfg, rs[k], events[k]);
  }

  /** A Reset closes the circuit from any state and clears what was counted, with a window from now. */
  lemma {:induction false} ResetCloses(cfg: Config, start: int, events: seq<Event>, rs: seq<Run>, k: nat)
    requires IsHistory(cfg, start, events, rs) && k < |events| && events[k].Reset?
    ensures rs[k + 1].core.state.Closed? && rs[k + 1].core.windowStart == events[k].now
    ensures rs[k + 1].core.failures == rs[k + 1].core.successes == rs[k + 1].core.inFlight == 0
    ensures rs[k + 1].admissions == rs[k].admissions && rs[k + 1].log == rs[k].log
  {
    assert rs[k + 1] == Step(cfg, rs[k], events[k]);
  }

  // ---------------------------------------------------------------- probes that never report

  ghost predicate OnlyAllows(events: seq<Event>) {
    forall i :: 0 <= i < |events| ==> events[i].Allow?
  }

  /** How many of n Allow calls a half-open breaker still admits when nobody reports. */
  function Room(cfg: Config, b: Core, n: nat): nat {
    if b.inFlight >= cfg.maxHalfOpen then 0
    else if n <= cfg.maxHalfOpen - b.inFlight then n
    else cfg.maxHalfOpen - b.inFlight
  }

  /** Time alone frees no slot: until somebody reports or resets, a half-open breaker admits exactly as many
      of the Allow calls, at whatever times they come, as it has slots left. */
  lemma {:induction false} OnlyReportsFreeSlots(cfg: Config, r: Run, events: seq<Event>)
    requires r.core.state.HalfOpen? && OnlyAllows(events)
    ensures var s, n := Play(cfg, r, events), Room(cfg, r.core, |events|);
      s.core == r.core.(inFlight := r.core.inFlight + n) && s.admissions == r.admissions + n
  {
    if events == [] {
    } else {
      var most, last := events[..|events| - 1], events[|events| - 1];
      OnlyReportsFreeSlots(cfg, r, most);
      assert last.Allow?;
    }
  }

  /** So the next caller is admitted if and only if a slot is free, and one abandoned probe in the last
      slot shuts the breaker until a report or a reset. */
  lemma {:induction false} WedgedIff(cfg: Config, r: Run, events: seq<Event>)
    requires r.core.state.HalfOpen? && OnlyAllows(events) && events != []
    ensures Play(cfg, r, events).admissions == r.admissions <==> r.core.inFlight >= cfg.maxHalfOpen
    ensures r.core.inFlight >= cfg.maxHalfOpen ==> Play(cfg, r, events).core == r.core
  {
    OnlyReportsFreeSlots(cfg, r, events);
  }

  /** Such a state is reached by the callers of one episode that never report: after the first of them no
      more than MaxHalfOpenRequests are admitted, ever. */
  lemma {:induction false} AbandonedProbesWedge(cfg: Config, r: Run, now: int, events: seq<Event>)
    requires Usable(cfg) && r.core.state.Open? && now - r.core.lastFailure >= cfg.timeout && OnlyAllows(events)
    ensures var s := Play(cfg, Step(cfg, r, Allow(now)), events);
      && s.core.state.HalfOpen? && s.admissions <= r.admissions + cfg.maxHalfOpen
      && (s.admissions == r.admissions + cfg.maxHalfOpen <==> |events| + 1 >= cfg.maxHalfOpen)
  {
    OnlyReportsFreeSlots(cfg, Step(cfg, r, Allow(now)), events);
  }
}
