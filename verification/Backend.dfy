/** Backend and its pool as the source writes them, one call at a time: the draining loop of get, put,
    Close, CloseWrite and Dial. Each method is proved against a function of the pool's state, and each
    such function is shown to be what the step system of ConnPool does when nobody interferes. */
module Backend {
  import opened ConnPool
  import opened Wrappers

  /** What get leaves behind and hands out; alive holds the idle connections that pass the liveness check. */
  datatype Got = Got(world: World, conn: Option<nat>)

  function Evict(w: World, c: nat): World
    requires c < |w.conns|
  {
    w.(idle := if w.idle == [] then [] else w.idle[1..],
       conns := w.conns[c := w.conns[c].(closed := true)],
       dropped := w.dropped + 1, getDrops := w.getDrops + 1)
  }

  function GetAll(cfg: Config, w: World, now: int, alive: set<nat>): (g: Got)
    requires forall i :: 0 <= i < |w.idle| ==> w.idle[i] < |w.conns|
    ensures |g.world.conns| == |w.conns|
    ensures g.conn.Some? ==> g.conn.value < |w.conns| && !g.world.conns[g.conn.value].returned
    decreases |w.idle|
  {
    if w.idle == [] then Got(w.(misses := w.misses + 1), None)
    else if !Good(cfg, w.conns, w.idle[0], now, alive) then GetAll(cfg, Evict(w, w.idle[0]), now, alive)
    else Got(Hand(w, now), Some(w.idle[0]))
  }

  predicate Good(cfg: Config, conns: seq<Conn>, c: nat, now: int, alive: set<nat>) {
    c < |conns| && !Expired(cfg, conns[c], now) && c in alive
  }

  /** The oldest idle connection leaves the channel as a hit. */
  function Hand(w: World, now: int): World
    requires w.idle != [] && w.idle[0] < |w.conns|
  {
    var c := w.idle[0];
    w.(idle := w.idle[1..], hits := w.hits + 1,
       conns := w.conns[c := w.conns[c].(returned := false, lastUsed := now)])
  }

  /** The place in the channel of the first good connection, |idle| if there is none. */
  function FirstGood(cfg: Config, conns: seq<Conn>, idle: seq<nat>, now: int, alive: set<nat>): (k: nat)
    ensures k <= |idle|
    ensures k < |idle| ==> Good(cfg, conns, idle[k], now, alive)
    ensures forall i :: 0 <= i < k ==> !Good(cfg, conns, idle[i], now, alive)
  {
    if idle == [] || Good(cfg, conns, idle[0], now, alive) then 0
    else 1 + FirstGood(cfg, conns, idle[1..], now, alive)
  }

  lemma {:induction false} GoodElsewhere(cfg: Config, conns: seq<Conn>, c: nat, conn: Conn, idle: seq<nat>, now: int,
                                         alive: set<nat>)
    requires c < |conns| && c !in idle
    ensures FirstGood(cfg, conns[c := conn], idle, now, alive) == FirstGood(cfg, conns, idle, now, alive)
  {
    if idle == [] {
    } else {
      GoodElsewhere(cfg, conns, c, conn, idle[1..], now, alive);
    }
  }

  lemma EvictKeepsIdleOk(w: World)
    requires IdleOk(w) && w.idle != []
    ensures IdleOk(Evict(w, w.idle[0])) && w.idle[0] !in w.idle[1..]
  {
  }

  /** What get leaves of a connection when k connections stood before the first good one. */
  function ConnAfterGet(w: World, k: nat, c: nat, now: int): Conn
    requires k <= |w.idle| && c < |w.conns|
  {
    if c in w.idle[..k] then w.conns[c].(closed := true)
    else if k < |w.idle| && c == w.idle[k] then w.conns[c].(returned := false, lastUsed := now)
    else w.conns[c]
  }

  ghost predicate TookFirstGood(w: World, g: Got, k: nat, now: int)
    requires k <= |w.idle|
  {
    && |g.world.conns| == |w.conns|
    && (forall c: nat :: c < |w.conns| ==> g.world.conns[c] == ConnAfterGet(w, k, c, now))
    && (if k < |w.idle|
        then && g.conn == Some(w.idle[k])
             && g.world == w.(conns := g.world.conns, idle := w.idle[k + 1..], hits := w.hits + 1,
                              dropped := w.dropped + k, getDrops := w.getDrops + k)
        else && g.conn == None
             && g.world == w.(conns := g.world.conns, idle := [], misses := w.misses + 1,
                              dropped := w.dropped + k, getDrops := w.getDrops + k))
  }

  lemma {:induction false} ConnAfterOneMore(w: World, v: World, k: nat, c: nat, now: int)
    requires IdleOk(w) && k < |w.idle| && c < |w.conns| && v == Evict(w, w.idle[0])
    ensures ConnAfterGet(v, k, c, now) == ConnAfterGet(w, k + 1, c, now)
  {
    var x, rest := w.idle[0], w.idle[1..];
    assert w.idle[..k + 1] == [x] + rest[..k];
    assert k + 1 < |w.idle| ==> rest[k] == w.idle[k + 1];
    assert x !in rest;
  }

  lemma {:induction false} TookOneMore(w: World, v: World, g: Got, k: nat, now: int)
    requires IdleOk(w) && k < |w.idle| && v == Evict(w, w.idle[0])
    requires TookFirstGood(v, g, k, now)
    ensures TookFirstGood(w, g, k + 1, now)
  {
    var rest := w.idle[1..];
    assert k + 1 < |w.idle| ==> rest[k] == w.idle[k + 1] && rest[k + 1..] == w.idle[k + 2..];
    forall c: nat | c < |w.conns| ensures g.world.conns[c] == ConnAfterGet(w, k + 1, c, now) {
      ConnAfterOneMore(w, v, k, c, now);
    }
  }

  /** get hands out the first good connection, drops exactly those before it, closing their sockets,
      and keeps those after; with none it empties the channel and counts one miss. */
  lemma {:induction false} GetTakesFirstGood(cfg: Config, w: World, now: int, alive: set<nat>)
    requires IdleOk(w)
    ensures TookFirstGood(w, GetAll(cfg, w, now, alive), FirstGood(cfg, w.conns, w.idle, now, alive), now)
    decreases |w.idle|
  {
    if w.idle == [] || Good(cfg, w.conns, w.idle[0], now, alive) {
      assert w.idle[..0] == [];
    } else {
      var v := Evict(w, w.idle[0]);
      EvictKeepsIdleOk(w);
      GetTakesFirstGood(cfg, v, now, alive);
      GoodElsewhere(cfg, w.conns, w.idle[0], v.conns[w.idle[0]], w.idle[1..], now, alive);
      TookOneMore(w, v, GetAll(cfg, v, now, alive), FirstGood(cfg, v.conns, v.idle, now, alive), now);
    }
  }

  /** put: the connection becomes idle, or is dropped and its socket closed. */
  function PutOne(cfg: Config, w: World, c: nat, now: int): World
    requires c < |w.conns|
  {
    if Expired(cfg, w.conns[c], now) || |w.idle| >= cfg.maxIdle
    then w.(conns := w.conns[c := w.conns[c].(closed := true)], dropped := w.dropped + 1, putDrops := w.putDrops + 1)
    else w.(idle := w.idle + [c], returned := w.returned + 1)
  }

  /** Close from beginning to end. */
  function CloseOne(cfg: Config, w: World, c: nat, now: int): World
    requires c < |w.conns|
  {
    if w.conns[c].returned then w
    else
      var v := w.(conns := w.conns[c := w.conns[c].(returned := true)], active := w.active - 1);
      if !cfg.pooling || v.conns[c].halfClosed then v.(conns := v.conns[c := v.conns[c].(closed := true)])
      else PutOne(cfg, v, c, now)
  }

  /** The part of Dial that goes to the network. */
  function Connect(w: World, now: int, good: bool): Got {
    if good
    then Got(w.(total := w.total + 1, active := w.active + 1,
                conns := w.conns + [Conn(false, false, false, false, now, now)]), Some(|w.conns|))
    else Got(w.(total := w.total + 1, failures := w.failures + 1), None)
  }

  /** Dial from beginning to end. */
  function DialOne(cfg: Config, w: World, now: int, alive: set<nat>, good: bool): Got
    requires forall i :: 0 <= i < |w.idle| ==> w.idle[i] < |w.conns|
  {
    var v := w.(dials := w.dials + 1);
    if !cfg.pooling then Connect(v, now, good)
    else
      var g := GetAll(cfg, v, now, alive);
      if g.conn.Some? then Got(g.world.(active := g.world.active + 1), g.conn) else Connect(g.world, now, good)
  }

  class PooledBackend {
    const cfg: Config
    var conns: seq<Conn>
    var idle: seq<nat>
    var hits: nat
    var misses: nat
    var returned: nat
    var dropped: nat
    var activeConns: int
    var totalConns: nat
    var failures: nat
    ghost var getDrops: nat
    ghost var putDrops: nat
    ghost var dials: nat

    ghost function View(): World
      reads this
    {
      World(conns, idle, [], hits, misses, returned, dropped, activeConns,
            totalConns, failures, getDrops, putDrops, dials)
    }

    ghost predicate Valid()
      reads this
    {
      forall i :: 0 <= i < |idle| ==> idle[i] < |conns|
    }

    constructor (c: Config)
      ensures Valid() && View() == START && cfg == c
    {
      cfg := c;
      conns, idle := [], [];
      hits, misses, returned, dropped := 0, 0, 0, 0;
      activeConns, totalConns, failures := 0, 0, 0;
      getDrops, putDrops, dials := 0, 0, 0;
    }

    /** get drops a connection that it has received. */
    method Discard(c: nat)
      requires Valid() && c < |conns|
      modifies this`dropped, this`getDrops, this`conns
      ensures Valid() && View() == old(View()).(dropped := old(dropped) + 1, getDrops := old(getDrops) + 1,
                                               conns := old(conns)[c := old(conns)[c].(closed := true)])
    {
      dropped, getDrops := dropped + 1, getDrops + 1;
      conns := conns[c := conns[c].(closed := true)];
    }

    /** get hands out a connection that it has received. */
    method Reuse(c: nat, now: int)
      requires Valid() && c < |conns|
      modifies this`hits, this`conns
      ensures Valid() && View() == old(View()).(hits := old(hits) + 1,
                                               conns := old(conns)[c :=
                                                         old(conns)[c].(returned := false, lastUsed := now)])
    {
      hits := hits + 1;
      conns := conns[c := conns[c].(returned := false, lastUsed := now)];
    }

    method Get(now: int, alive: set<nat>) returns (r: Option<nat>)
      requires Valid()
      modifies this
      ensures Valid() && Got(View(), r) == GetAll(cfg, old(View()), now, alive)
    {
      while true
        invariant Valid()
        invariant GetAll(cfg, View(), now, alive) == GetAll(cfg, old(View()), now, alive)
        decreases |idle|
      {
        if |idle| == 0 {
          misses := misses + 1;
          return None;
        }
        ghost var w := View();
        var c := idle[0];
        idle := idle[1..];
        if Expired(cfg, conns[c], now) || c !in alive {
          assert !Good(cfg, w.conns, c, now, alive);
          Discard(c);
          assert View() == Evict(w, c);
        } else {
          Reuse(c, now);
          assert View() == Hand(w, now);
          return Some(c);
        }
      }
    }

    method Put(c: nat, now: int) returns (pooled: bool)
      requires Valid() && c < |conns|
      modifies this
      ensures Valid() && View() == PutOne(cfg, old(View()), c, now)
      ensures pooled <==> View() == old(View()).(idle := old(idle) + [c], returned := old(returned) + 1)
    {
      if Expired(cfg, conns[c], now) || |idle| >= cfg.maxIdle {
        dropped, putDrops := dropped + 1, putDrops + 1;
        conns := conns[c := conns[c].(closed := true)];
        return false;
      }
      idle := idle + [c];
      returned := returned + 1;
      return true;
    }

    method Close(c: nat, now: int)
      requires Valid() && c < |conns|
      modifies this
      ensures Valid() && View() == CloseOne(cfg, old(View()), c, now)
    {
      if conns[c].returned {
        return;
      }
      conns := conns[c := conns[c].(returned := true)];
      var halfClosed := conns[c].halfClosed;
      activeConns := activeConns - 1;
      if !cfg.pooling || halfClosed {
        conns := conns[c := conns[c].(closed := true)];
        return;
      }
      var pooled := Put(c, now);
      if !pooled {
        conns := conns[c := conns[c].(closed := true)];
      }
    }

    method CloseWrite(c: nat)
      requires Valid() && c < |conns|
      modifies this`conns
      ensures Valid() && View() == Do(cfg, old(View()), ConnPool.CloseWrite(c))
    {
      if conns[c].returned {
        return;
      }
      conns := conns[c := conns[c].(halfClosed := true, fin := true)];
    }

    /** The network part of Dial; good says whether the dialer connects. */
    method Reach(now: int, good: bool) returns (r: Option<nat>)
      requires Valid()
      modifies this
      ensures Valid() && Got(View(), r) == Connect(old(View()), now, good)
    {
      totalConns := totalConns + 1;
      if !good {
        failures := failures + 1;
        return None;
      }
      conns := conns + [Conn(false, false, false, false, now, now)];
      activeConns := activeConns + 1;
      return Some(|conns| - 1);
    }

    method Dial(now: int, alive: set<nat>, good: bool) returns (r: Option<nat>)
      requires Valid()
      modifies this
      ensures Valid() && Got(View(), r) == DialOne(cfg, old(View()), now, alive, good)
    {
      dials := dials + 1;
      if cfg.pooling {
        r := Get(now, alive);
        if r.Some? {
          activeConns := activeConns + 1;
          return;
        }
      }
      r := Reach(now, good);
    }
  }

  /** The connection Dial hands out is never one marked returned. */
  lemma DialledIsCheckedOut(cfg: Config, w: World, now: int, alive: set<nat>, good: bool)
    requires forall i :: 0 <= i < |w.idle| ==> w.idle[i] < |w.conns|
    ensures var g := DialOne(cfg, w, now, alive, good);
      g.conn.Some? ==> g.conn.value < |g.world.conns| && !g.world.conns[g.conn.value].returned
  {
  }

  /** A connection handed back now is fit for the pool: not half-closed, not too old, and there is room. */
  ghost predicate Poolable(cfg: Config, w: World, c: Conn, now: int) {
    && cfg.pooling && !c.halfClosed && |w.idle| < cfg.maxIdle
    && (cfg.maxLifetime > 0 ==> now - c.createdAt <= cfg.maxLifetime)
    && (cfg.idleTimeout > 0 ==> now - c.lastUsed <= cfg.idleTimeout)
  }

  /** The first Close of a connection makes it idle if and only if it is fit for the pool, and otherwise
      closes its socket; it is then no longer active, and only a put counts. Any later Close does nothing. */
  lemma {:induction false} ClosePoolsIff(cfg: Config, w: World, c: nat, now: int)
    requires c < |w.conns|
    ensures var v, conn := CloseOne(cfg, w, c, now), w.conns[c];
      var pools := Poolable(cfg, w, conn, now);
      var refuses := cfg.pooling && !conn.halfClosed && !pools;
      v == if conn.returned then w
           else w.(idle := if pools then w.idle + [c] else w.idle,
                   conns := w.conns[c := conn.(returned := true, closed := conn.closed || !pools)],
                   active := w.active - 1,
                   returned := w.returned + (if pools then 1 else 0),
                   dropped := w.dropped + (if refuses then 1 else 0),
                   putDrops := w.putDrops + (if refuses then 1 else 0))
  {
    var v, conn := CloseOne(cfg, w, c, now), w.conns[c];
    var marked := w.conns[c := conn.(returned := true)];
    assert marked[c := marked[c].(closed := true)] == w.conns[c := conn.(returned := true, closed := true)];
  }

  /** Dial hands out the first good idle connection without touching the network; if there is none it
      tries the network once, and hands out a new connection if and only if that succeeds. */
  lemma {:induction false} DialMeans(cfg: Config, w: World, now: int, alive: set<nat>, good: bool)
    requires IdleOk(w)
    ensures var g, k := DialOne(cfg, w, now, alive, good), FirstGood(cfg, w.conns, w.idle, now, alive);
      var v := g.world;
      && v.dials == w.dials + 1 && v.active == w.active + (if g.conn.Some? then 1 else 0)
      && if cfg.pooling && k < |w.idle| then
           g.conn == Some(w.idle[k]) && v.total == w.total && v.failures == w.failures && |v.conns| == |w.conns|
         else
           && v.total == w.total + 1 && v.failures == w.failures + (if good then 0 else 1)
           && g.conn == (if good then Some(|w.conns|) else None)
           && |v.conns| == |w.conns| + (if good then 1 else 0)
           && (good ==> v.conns[|w.conns|] == Conn(false, false, false, false, now, now))
  {
    GetTakesFirstGood(cfg, w.(dials := w.dials + 1), now, alive);
  }

  /** With an IdleTimeout of 10, a connection checked out at 0 and returned at 9 is dropped by the get at
      11, although it was idle for 2 only and is alive. */
  lemma {:induction false} DroppedAfterTwo(cfg: Config)
    requires cfg == Config(true, 1, 10, 0)
    ensures var dialled := DialOne(cfg, START, 0, {}, true);
      && dialled.conn == Some(0) && dialled.world.conns == [Conn(false, false, false, false, 0, 0)]
      && var returned := CloseOne(cfg, dialled.world, 0, 9);
      && returned.conns == [Conn(true, false, false, false, 0, 0)] && returned.idle == [0] && returned.dropped == 0
      && var got := GetAll(cfg, returned, 11, {0});
      && got.conn == None && got.world.conns == [Conn(true, false, false, true, 0, 0)]
      && got.world.getDrops == 1 && got.world.hits == 0
  {
    var dialled := DialOne(cfg, START, 0, {}, true);
    assert dialled.world.conns == [Conn(false, false, false, false, 0, 0)];
    var returned := CloseOne(cfg, dialled.world, 0, 9);
    assert returned.conns == [Conn(true, false, false, false, 0, 0)] && returned.idle == [0];
    var evicted := Evict(returned, 0);
    assert evicted.idle == [] && evicted.conns == [Conn(true, false, false, true, 0, 0)];
  }

  // ---------------------------------------------------------------- these are runs of the step system

  function Exec(cfg: Config, w: World, steps: seq<Action>): World
    decreases |steps|
  {
    if steps == [] then w else Exec(cfg, Do(cfg, w, steps[0]), steps[1..])
  }

  lemma {:induction false} ExecFirst(cfg: Config, w: World, a: Action, rest: seq<Action>)
    ensures Exec(cfg, w, [a] + rest) == Exec(cfg, Do(cfg, w, a), rest)
  {
    assert ([a] + rest)[1..] == rest;
  }

  /** Steps of call k and of no other. */
  ghost predicate OwnSteps(steps: seq<Action>, k: nat) {
    forall i :: 0 <= i < |steps| ==> steps[i].Advance? && steps[i].k == k
  }

  lemma {:induction false} ExecConcat(cfg: Config, w: World, a: seq<Action>, b: seq<Action>)
    ensures Exec(cfg, w, a + b) == Exec(cfg, Exec(cfg, w, a), b)
    decreases |a|
  {
    if a == [] {
      assert a + b == b;
    } else {
      assert a == [a[0]] + a[1..] && a + b == [a[0]] + (a[1..] + b);
      ExecFirst(cfg, w, a[0], a[1..] + b);
      ExecConcat(cfg, Do(cfg, w, a[0]), a[1..], b);
    }
  }

  /** Four steps take call k through one bad connection. */
  lemma {:induction false} EvictIsSteps(cfg: Config, w: World, k: nat, now: int, alive: set<nat>)
    requires k < |w.calls| && w.calls[k] == Getting && w.idle != [] && w.idle[0] < |w.conns|
    requires !Good(cfg, w.conns, w.idle[0], now, alive)
    ensures var x := Advance(k, now, w.idle[0] in alive);
      Do(cfg, Do(cfg, Do(cfg, Do(cfg, w, x), x), x), x) == Evict(w, w.idle[0])
  {
    var c := w.idle[0];
    CondemnIsSteps(cfg, w, k, now, alive);
    DiscardIsSteps(cfg, w.(idle := w.idle[1..]), k, c, now, c in alive);
    assert w.calls[k := Getting] == w.calls;
  }

  lemma {:induction false} CondemnIsSteps(cfg: Config, w: World, k: nat, now: int, alive: set<nat>)
    requires k < |w.calls| && w.calls[k] == Getting && w.idle != [] && w.idle[0] < |w.conns|
    requires !Good(cfg, w.conns, w.idle[0], now, alive)
    ensures var x := Advance(k, now, w.idle[0] in alive);
      Do(cfg, Do(cfg, w, x), x) == w.(idle := w.idle[1..], calls := w.calls[k := Discarding(w.idle[0])])
  {
    var received := Do(cfg, w, Advance(k, now, w.idle[0] in alive));
    assert received == w.(idle := w.idle[1..], calls := w.calls[k := Checking(w.idle[0])]);
  }

  lemma {:induction false} DiscardIsSteps(cfg: Config, w: World, k: nat, c: nat, now: int, good: bool)
    requires k < |w.calls| && c < |w.conns|
    ensures var x := Advance(k, now, good);
      Do(cfg, Do(cfg, w.(calls := w.calls[k := Discarding(c)]), x), x)
      == w.(calls := w.calls[k := Getting], conns := w.conns[c := w.conns[c].(closed := true)],
            dropped := w.dropped + 1, getDrops := w.getDrops + 1)
  {
    var counted := Do(cfg, w.(calls := w.calls[k := Discarding(c)]), Advance(k, now, good));
    assert counted == w.(calls := w.calls[k := Evicting(c)], dropped := w.dropped + 1, getDrops := w.getDrops + 1);
  }

  /** Four steps take call k to a hit. */
  lemma HandIsSteps(cfg: Config, w: World, k: nat, now: int, alive: set<nat>)
    requires k < |w.calls| && w.calls[k] == Getting && w.idle != [] && w.idle[0] < |w.conns|
    requires Good(cfg, w.conns, w.idle[0], now, alive)
    ensures var a := Do(cfg, w, Advance(k, now, true));
      var b := Do(cfg, a, Advance(k, now, true));
      var c := Do(cfg, b, Advance(k, now, true));
      Do(cfg, c, Advance(k, now, true)) == Hand(w, now).(calls := w.calls[k := Activating(w.idle[0])])
  {
  }

  lemma MissIsSteps(cfg: Config, w: World, k: nat, now: int)
    requires k < |w.calls| && w.calls[k] == Getting && w.idle == []
    ensures Do(cfg, Do(cfg, w, Advance(k, now, true)), Advance(k, now, true))
         == w.(misses := w.misses + 1, calls := w.calls[k := Dialing])
  {
  }

  lemma {:induction false} TwoSteps(cfg: Config, w: World, x: Action, rest: seq<Action>)
    ensures Exec(cfg, w, [x, x] + rest) == Exec(cfg, Do(cfg, Do(cfg, w, x), x), rest)
  {
    assert [x, x] + rest == [x] + ([x] + rest);
    ExecFirst(cfg, w, x, [x] + rest);
    ExecFirst(cfg, Do(cfg, w, x), x, rest);
  }

  lemma {:induction false} FourSteps(cfg: Config, w: World, x: Action, rest: seq<Action>)
    ensures Exec(cfg, w, [x, x, x, x] + rest) == Exec(cfg, Do(cfg, Do(cfg, Do(cfg, Do(cfg, w, x), x), x), x), rest)
  {
    var half := Do(cfg, Do(cfg, w, x), x);
    SplitFour(x, rest);
    TwoSteps(cfg, w, x, [x, x] + rest);
    TwoSteps(cfg, half, x, rest);
  }

  lemma {:induction false} SplitFour(x: Action, rest: seq<Action>)
    ensures [x, x, x, x] + rest == [x, x] + ([x, x] + rest)
  {
  }

  /** get run without interference is a run of steps of its own call, to the same state. */
  lemma {:induction false} GetIsSteps(cfg: Config, w: World, k: nat, now: int, alive: set<nat>)
    returns (steps: seq<Action>)
    requires IdleOk(w) && k < |w.calls| && w.calls[k] == Getting
    ensures OwnSteps(steps, k)
    ensures var g := GetAll(cfg, w, now, alive);
      Exec(cfg, w, steps)
      == g.world.(calls := w.calls[k := if g.conn.Some? then Activating(g.conn.value) else Dialing])
    decreases |w.idle|
  {
    if w.idle == [] {
      var x := Advance(k, now, true);
      MissIsSteps(cfg, w, k, now);
      ExecFirst(cfg, w, x, [x]);
      ExecFirst(cfg, Do(cfg, w, x), x, []);
      assert [x] + [x] == [x, x] && [x] + [] == [x];
      steps := [x, x];
    } else if Good(cfg, w.conns, w.idle[0], now, alive) {
      var x := Advance(k, now, true);
      HandIsSteps(cfg, w, k, now, alive);
      FourSteps(cfg, w, x, []);
      steps := [x, x, x, x] + [];
    } else {
      var x := Advance(k, now, w.idle[0] in alive);
      EvictIsSteps(cfg, w, k, now, alive);
      EvictKeepsIdleOk(w);
      var rest := GetIsSteps(cfg, Evict(w, w.idle[0]), k, now, alive);
      FourSteps(cfg, w, x, rest);
      steps := [x, x, x, x] + rest;
    }
  }

  // Close, from its locked section on; its call is number |w.calls|.

  function Locked(w: World, c: nat): World
    requires c < |w.conns|
  {
    w.(conns := w.conns[c := w.conns[c].(returned := true)])
  }

  /** Close has begun and decremented activeConns. */
  function Begun(w: World, c: nat, call: Call): World
    requires c < |w.conns|
  {
    Locked(w, c).(active := w.active - 1, calls := w.calls + [call])
  }

  lemma {:induction false} BeginIsSteps(cfg: Config, w: World, c: nat, now: int)
    requires c < |w.conns| && !w.conns[c].returned
    ensures Do(cfg, Do(cfg, w, ConnPool.Close(c)), Advance(|w.calls|, now, true))
         == Begun(w, c, Releasing(c, w.conns[c].halfClosed))
  {
    var half := w.conns[c].halfClosed;
    assert (w.calls + [Closing(c, half)])[|w.calls| := Releasing(c, half)] == w.calls + [Releasing(c, half)];
  }

  lemma MoveOn(w: World, call: Call, next: Call)
    ensures (w.calls + [call])[|w.calls| := next] == w.calls + [next]
  {
  }

  /** put's rejection: count it, close the socket, and close it again in Close. */
  lemma {:induction false} RejectIsSteps(cfg: Config, w: World, c: nat, now: int)
    requires c < |w.conns|
    ensures var x, v := Advance(|w.calls|, now, true), Begun(w, c, Rejecting(c));
      Do(cfg, Do(cfg, Do(cfg, v, x), x), x)
      == Begun(w, c, Done).(conns := w.conns[c := w.conns[c].(returned := true, closed := true)],
                            dropped := w.dropped + 1, putDrops := w.putDrops + 1)
  {
    var x := Advance(|w.calls|, now, true);
    MoveOn(w, Rejecting(c), Shutting(c));
    MoveOn(w, Shutting(c), Reshutting(c));
    MoveOn(w, Reshutting(c), Done);
    var counted := Do(cfg, Begun(w, c, Rejecting(c)), x);
    assert counted == Begun(w, c, Shutting(c)).(dropped := w.dropped + 1, putDrops := w.putDrops + 1);
    var shut := Do(cfg, counted, x);
    assert shut == Begun(w, c, Reshutting(c)).(conns := w.conns[c := w.conns[c].(returned := true, closed := true)],
                                               dropped := w.dropped + 1, putDrops := w.putDrops + 1);
  }

  /** Close run without interference is a run of steps of its own call, to the same state. */
  lemma {:induction false} CloseIsSteps(cfg: Config, w: World, c: nat, now: int) returns (steps: seq<Action>)
    requires c < |w.conns| && !w.conns[c].returned
    ensures steps != [] && steps[0] == ConnPool.Close(c) && OwnSteps(steps[1..], |w.calls|)
    ensures Exec(cfg, w, steps) == CloseOne(cfg, w, c, now).(calls := w.calls + [Done])
  {
    var x := Advance(|w.calls|, now, true);
    var rest := ReleaseIsSteps(cfg, w, c, now);
    BeginIsSteps(cfg, w, c, now);
    ExecFirst(cfg, w, ConnPool.Close(c), [x] + rest);
    ExecFirst(cfg, Do(cfg, w, ConnPool.Close(c)), x, rest);
    steps := [ConnPool.Close(c)] + ([x] + rest);
  }

  lemma {:induction false} ShutIsStep(cfg: Config, w: World, c: nat, now: int, half: bool)
    requires c < |w.conns| && (!cfg.pooling || half)
    ensures Do(cfg, Begun(w, c, Releasing(c, half)), Advance(|w.calls|, now, true))
         == w.(conns := w.conns[c := w.conns[c].(returned := true, closed := true)],
               active := w.active - 1, calls := w.calls + [Done])
  {
    MoveOn(w, Releasing(c, half), Done);
    var v := Locked(w, c).conns;
    assert v[c := v[c].(closed := true)] == w.conns[c := w.conns[c].(returned := true, closed := true)];
  }

  lemma {:induction false} CondemnedIsStep(cfg: Config, w: World, c: nat, now: int)
    requires c < |w.conns| && cfg.pooling && Expired(cfg, w.conns[c], now)
    ensures Do(cfg, Begun(w, c, Releasing(c, false)), Advance(|w.calls|, now, true)) == Begun(w, c, Rejecting(c))
  {
    MoveOn(w, Releasing(c, false), Rejecting(c));
  }

  lemma {:induction false} OfferedIsStep(cfg: Config, w: World, c: nat, now: int)
    requires c < |w.conns| && cfg.pooling && !Expired(cfg, w.conns[c], now)
    ensures Do(cfg, Begun(w, c, Releasing(c, false)), Advance(|w.calls|, now, true)) == Begun(w, c, Offering(c))
  {
    MoveOn(w, Releasing(c, false), Offering(c));
  }

  lemma {:induction false} ReleaseIsSteps(cfg: Config, w: World, c: nat, now: int) returns (steps: seq<Action>)
    requires c < |w.conns| && !w.conns[c].returned
    ensures OwnSteps(steps, |w.calls|)
    ensures Exec(cfg, Begun(w, c, Releasing(c, w.conns[c].halfClosed)), steps)
         == CloseOne(cfg, w, c, now).(calls := w.calls + [Done])
  {
    var x, half := Advance(|w.calls|, now, true), w.conns[c].halfClosed;
    var begun := Begun(w, c, Releasing(c, half));
    if !cfg.pooling || half {
      ShutIsStep(cfg, w, c, now, half);
      ExecFirst(cfg, begun, x, []);
      steps := [x] + [];
    } else if Expired(cfg, w.conns[c], now) {
      CondemnedIsStep(cfg, w, c, now);
      RejectIsSteps(cfg, w, c, now);
      FourSteps(cfg, begun, x, []);
      steps := [x, x, x, x] + [];
    } else {
      OfferedIsStep(cfg, w, c, now);
      steps := OfferIsSteps(cfg, w, c, now);
      ExecFirst(cfg, begun, x, steps);
      steps := [x] + steps;
    }
  }

  lemma {:induction false} PoolIsSteps(cfg: Config, w: World, c: nat, now: int)
    requires c < |w.conns| && |w.idle| < cfg.maxIdle
    ensures var x := Advance(|w.calls|, now, true);
      Do(cfg, Do(cfg, Begun(w, c, Offering(c)), x), x)
      == Begun(w, c, Done).(idle := w.idle + [c], returned := w.returned + 1)
  {
    MoveOn(w, Offering(c), Sent(c));
    MoveOn(w, Sent(c), Done);
    assert Do(cfg, Begun(w, c, Offering(c)), Advance(|w.calls|, now, true))
        == Begun(w, c, Sent(c)).(idle := w.idle + [c]);
  }

  lemma {:induction false} OfferIsSteps(cfg: Config, w: World, c: nat, now: int) returns (steps: seq<Action>)
    requires c < |w.conns| && !w.conns[c].returned && cfg.pooling && !w.conns[c].halfClosed
    requires !Expired(cfg, w.conns[c], now)
    ensures OwnSteps(steps, |w.calls|)
    ensures Exec(cfg, Begun(w, c, Offering(c)), steps) == CloseOne(cfg, w, c, now).(calls := w.calls + [Done])
  {
    var x, offering := Advance(|w.calls|, now, true), Begun(w, c, Offering(c));
    if |w.idle| < cfg.maxIdle {
      PoolIsSteps(cfg, w, c, now);
      ExecFirst(cfg, offering, x, [x]);
      ExecFirst(cfg, Do(cfg, offering, x), x, []);
      assert [x] + [] == [x];
      steps := [x] + [x];
    } else {
      MoveOn(w, Offering(c), Rejecting(c));
      RejectIsSteps(cfg, w, c, now);
      FourSteps(cfg, offering, x, []);
      steps := [x, x, x, x] + [];
    }
  }

  // Dial, whose call is number |w.calls|.

  lemma {:induction false} GetIgnoresCalls(cfg: Config, w: World, calls: seq<Call>, now: int, alive: set<nat>)
    requires forall i :: 0 <= i < |w.idle| ==> w.idle[i] < |w.conns|
    ensures var g := GetAll(cfg, w, now, alive);
      GetAll(cfg, w.(calls := calls), now, alive) == Got(g.world.(calls := calls), g.conn)
    decreases |w.idle|
  {
    if w.idle == [] || Good(cfg, w.conns, w.idle[0], now, alive) {
    } else {
      GetIgnoresCalls(cfg, Evict(w, w.idle[0]), calls, now, alive);
      assert Evict(w.(calls := calls), w.idle[0]) == Evict(w, w.idle[0]).(calls := calls);
    }
  }

  /** The last step of a successful Dial. */
  lemma {:induction false} ActivateIsStep(cfg: Config, w: World, c: nat, now: int)
    ensures Do(cfg, w.(calls := w.calls + [Activating(c)]), Advance(|w.calls|, now, true))
         == w.(active := w.active + 1, calls := w.calls + [Done])
  {
    MoveOn(w, Activating(c), Done);
  }

  lemma {:induction false} ConnectIsSteps(cfg: Config, w: World, now: int, good: bool) returns (steps: seq<Action>)
    ensures OwnSteps(steps, |w.calls|)
    ensures Exec(cfg, w.(calls := w.calls + [Dialing]), steps)
         == Connect(w, now, good).world.(calls := w.calls + [Done])
  {
    var x, y := Advance(|w.calls|, now, true), Advance(|w.calls|, now, good);
    var dialing := w.(calls := w.calls + [Dialing]);
    var waiting := w.(total := w.total + 1, calls := w.calls + [Waiting]);
    MoveOn(w, Dialing, Waiting);
    assert Do(cfg, dialing, x) == waiting;
    if good {
      var made := w.(total := w.total + 1, conns := w.conns + [Conn(false, false, false, false, now, now)]);
      MoveOn(w, Waiting, Activating(|w.conns|));
      assert Do(cfg, waiting, y) == made.(calls := w.calls + [Activating(|w.conns|)]);
      ActivateIsStep(cfg, made, |w.conns|, now);
      steps := [x] + ([y] + ([x] + []));
      ExecFirst(cfg, dialing, x, [y] + ([x] + []));
      ExecFirst(cfg, waiting, y, [x] + []);
      ExecFirst(cfg, made.(calls := w.calls + [Activating(|w.conns|)]), x, []);
    } else {
      MoveOn(w, Waiting, Done);
      steps := [x] + ([y] + []);
      ExecFirst(cfg, dialing, x, [y] + []);
      ExecFirst(cfg, waiting, y, []);
    }
  }

  /** The part of Dial after its call has begun. */
  lemma {:induction false} GetThenConnectIsSteps(cfg: Config, w: World, now: int, alive: set<nat>, good: bool)
    returns (steps: seq<Action>)
    requires IdleOk(w)
    ensures OwnSteps(steps, |w.calls|)
    ensures var g := GetAll(cfg, w, now, alive);
      Exec(cfg, w.(calls := w.calls + [Getting]), steps)
      == (if g.conn.Some? then g.world.(active := g.world.active + 1) else Connect(g.world, now, good).world)
           .(calls := w.calls + [Done])
  {
    var k, g, getting := |w.calls|, GetAll(cfg, w, now, alive), w.(calls := w.calls + [Getting]);
    var first := GetIsSteps(cfg, getting, k, now, alive);
    GetIgnoresCalls(cfg, w, getting.calls, now, alive);
    GetKeepsCalls(cfg, w, now, alive);
    if g.conn.Some? {
      var x := Advance(k, now, true);
      MoveOn(w, Getting, Activating(g.conn.value));
      ActivateIsStep(cfg, g.world, g.conn.value, now);
      ExecFirst(cfg, g.world.(calls := w.calls + [Activating(g.conn.value)]), x, []);
      ExecConcat(cfg, getting, first, [x] + []);
      steps := first + ([x] + []);
    } else {
      MoveOn(w, Getting, Dialing);
      var rest := ConnectIsSteps(cfg, g.world, now, good);
      ExecConcat(cfg, getting, first, rest);
      steps := first + rest;
    }
  }

  lemma {:induction false} GetKeepsCalls(cfg: Config, w: World, now: int, alive: set<nat>)
    requires forall i :: 0 <= i < |w.idle| ==> w.idle[i] < |w.conns|
    ensures GetAll(cfg, w, now, alive).world.calls == w.calls
    decreases |w.idle|
  {
    if w.idle == [] || Good(cfg, w.conns, w.idle[0], now, alive) {
    } else {
      GetKeepsCalls(cfg, Evict(w, w.idle[0]), now, alive);
    }
  }

  /** Dial run without interference is a run of steps of its own call, to the same state. */
  lemma {:induction false} DialIsSteps(cfg: Config, w: World, now: int, alive: set<nat>, good: bool)
    returns (steps: seq<Action>)
    requires IdleOk(w)
    ensures steps != [] && steps[0] == ConnPool.Dial && OwnSteps(steps[1..], |w.calls|)
    ensures Exec(cfg, w, steps) == DialOne(cfg, w, now, alive, good).world.(calls := w.calls + [Done])
  {
    var v := w.(dials := w.dials + 1);
    var rest;
    if cfg.pooling {
      rest := GetThenConnectIsSteps(cfg, v, now, alive, good);
    } else {
      rest := ConnectIsSteps(cfg, v, now, good);
    }
    ExecFirst(cfg, w, ConnPool.Dial, rest);
    steps := [ConnPool.Dial] + rest;
  }
}
