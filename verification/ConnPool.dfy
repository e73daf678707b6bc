/** Pooled backend connections (internal/backend) as a step system.

    Close, CloseWrite and Dial may be called by anyone, on any connection, at any time, including
    late calls by earlier owners. A call is a program counter; each step is one locked section, one
    channel operation, one atomic counter update or one socket operation of the source. */
module ConnPool {
  import opened Counting

  /** idleTimeout and maxLifetime are in nanoseconds; MaxIdle is the capacity of the idle channel. */
  datatype Config = Config(pooling: bool, maxIdle: nat, idleTimeout: int, maxLifetime: int)

  /** fin records that a FIN went out on the socket, closed that the socket was closed. */
  datatype Conn = Conn(returned: bool, halfClosed: bool, fin: bool, closed: bool, createdAt: int, lastUsed: int)

  predicate Expired(cfg: Config, c: Conn, now: int) {
    || (cfg.maxLifetime > 0 && now - c.createdAt > cfg.maxLifetime)
    || (cfg.idleTimeout > 0 && now - c.lastUsed > cfg.idleTimeout)
  }

  datatype Call =
    // Close, after its locked section
    | Closing(c: nat, half: bool)    // activeConns not yet decremented
    | Releasing(c: nat, half: bool)  // about to close the socket or call put
    | Offering(c: nat)               // in put, not expired
    | Sent(c: nat)                   // in put, sent to the channel, not yet counted
    | Rejecting(c: nat)              // in put, expired or channel full, not yet counted
    | Shutting(c: nat)               // in put, counted, socket not yet closed
    | Reshutting(c: nat)             // back in Close, which closes the socket as well
    // Dial, inside get
    | Getting
    | Checking(c: nat)               // received from the channel
    | Discarding(c: nat)             // expired or dead, not yet counted
    | Evicting(c: nat)               // counted, socket not yet closed
    | Hitting(c: nat)                // good, not yet counted
    | Reusing(c: nat)                // counted, still marked returned
    | Missing                        // channel was empty, not yet counted
    // Dial, after get
    | Dialing                        // totalConns not yet incremented
    | Waiting                        // the dialer is at work
    | Activating(c: nat)             // activeConns not yet incremented
    | Done

  /** The counters are the source's; getDrops and putDrops split `dropped` by caller, and dials
      counts the calls of Dial. */
  datatype World = World(
    conns: seq<Conn>, idle: seq<nat>, calls: seq<Call>,
    hits: nat, misses: nat, returned: nat, dropped: nat,
    active: int, total: nat, failures: nat,
    getDrops: nat, putDrops: nat, dials: nat)

  const START := World([], [], [], 0, 0, 0, 0, 0, 0, 0, 0, 0, 0)

  /** Advance lets call k take its next step; now and good are what it reads from the clock and
      from the network (the liveness check or the dialer) if that step reads them. */
  datatype Action = Close(c: nat) | CloseWrite(c: nat) | Dial | Advance(k: nat, now: int, good: bool)

  function Mark(w: World, c: nat, conn: Conn): World
    requires c < |w.conns|
  {
    w.(conns := w.conns[c := conn])
  }

  function Goto(w: World, k: nat, next: Call): World
    requires k < |w.calls|
  {
    w.(calls := w.calls[k := next])
  }

  function Do(cfg: Config, w: World, a: Action): World {
    match a
    case Close(c) =>
      if c < |w.conns| && !w.conns[c].returned
      then Mark(w, c, w.conns[c].(returned := true)).(calls := w.calls + [Closing(c, w.conns[c].halfClosed)])
      else w
    case CloseWrite(c) =>
      if c < |w.conns| && !w.conns[c].returned
      then Mark(w, c, w.conns[c].(halfClosed := true, fin := true))
      else w
    case Dial =>
      w.(calls := w.calls + [if cfg.pooling then Getting else Dialing], dials := w.dials + 1)
    case Advance(k, now, good) =>
      if k < |w.calls| then StepCall(cfg, w, k, now, good) else w
  }

  function Shut(w: World, k: nat, c: nat, next: Call): World
    requires k < |w.calls|
  {
    if c < |w.conns| then Goto(Mark(w, c, w.conns[c].(closed := true)), k, next) else w
  }

  /** Close and the put inside it. */
  function StepClose(cfg: Config, w: World, k: nat, now: int): World
    requires k < |w.calls|
  {
    match w.calls[k]
    case Closing(c, half) => Goto(w.(active := w.active - 1), k, Releasing(c, half))
    case Releasing(c, half) =>
      if !cfg.pooling || half then Shut(w, k, c, Done)
      else if c < |w.conns| && Expired(cfg, w.conns[c], now) then Goto(w, k, Rejecting(c))
      else Goto(w, k, Offering(c))
    case Offering(c) =>
      if |w.idle| < cfg.maxIdle then Goto(w.(idle := w.idle + [c]), k, Sent(c)) else Goto(w, k, Rejecting(c))
    case Sent(c) => Goto(w.(returned := w.returned + 1), k, Done)
    case Rejecting(c) => Goto(w.(dropped := w.dropped + 1, putDrops := w.putDrops + 1), k, Shutting(c))
    case Shutting(c) => Shut(w, k, c, Reshutting(c))
    case Reshutting(c) => Shut(w, k, c, Done)
    case _ => w
  }

  /** The draining loop of get. */
  function StepGet(cfg: Config, w: World, k: nat, now: int, good: bool): World
    requires k < |w.calls|
  {
    match w.calls[k]
    case Getting =>
      if w.idle == [] then Goto(w, k, Missing) else Goto(w.(idle := w.idle[1..]), k, Checking(w.idle[0]))
    case Checking(c) =>
      if c < |w.conns| && (Expired(cfg, w.conns[c], now) || !good) then Goto(w, k, Discarding(c))
      else Goto(w, k, Hitting(c))
    case Discarding(c) => Goto(w.(dropped := w.dropped + 1, getDrops := w.getDrops + 1), k, Evicting(c))
    case Evicting(c) => Shut(w, k, c, Getting)
    case Hitting(c) => Goto(w.(hits := w.hits + 1), k, Reusing(c))
    case Reusing(c) =>
      if c < |w.conns|
      then Goto(Mark(w, c, w.conns[c].(returned := false, lastUsed := now)), k, Activating(c))
      else w
    case Missing => Goto(w.(misses := w.misses + 1), k, Dialing)
    case _ => w
  }

  /** The rest of Dial. */
  function StepDial(w: World, k: nat, now: int, good: bool): World
    requires k < |w.calls|
  {
    match w.calls[k]
    case Dialing => Goto(w.(total := w.total + 1), k, Waiting)
    case Waiting =>
      if good
      then Goto(w.(conns := w.conns + [Conn(false, false, false, false, now, now)]), k, Activating(|w.conns|))
      else Goto(w.(failures := w.failures + 1), k, Done)
    case Activating(c) => Goto(w.(active := w.active + 1), k, Done)
    case _ => w
  }

  predicate InClose(call: Call) {
    || call.Closing? || call.Releasing? || call.Offering? || call.Sent? || call.Rejecting? || call.Shutting?
    || call.Reshutting?
  }

  predicate InDial(call: Call) {
    call.Dialing? || call.Waiting? || call.Activating? || call.Done?
  }

  /** Call k of w is about to take its next step. */
  predicate Moves(w: World, a: Action) {
    a.Advance? && a.k < |w.calls|
  }

  function StepCall(cfg: Config, w: World, k: nat, now: int, good: bool): World
    requires k < |w.calls|
  {
    if InClose(w.calls[k]) then StepClose(cfg, w, k, now)
    else if InDial(w.calls[k]) then StepDial(w, k, now, good)
    else StepGet(cfg, w, k, now, good)
  }

  function Run(cfg: Config, actions: seq<Action>): World {
    if actions == [] then START else Do(cfg, Run(cfg, actions[..|actions| - 1]), actions[|actions| - 1])
  }

  lemma {:induction false} RunMore(cfg: Config, actions: seq<Action>, a: Action)
    ensures Run(cfg, actions + [a]) == Do(cfg, Run(cfg, actions), a)
  {
    assert (actions + [a])[..|actions|] == actions;
  }

  // ---------------------------------------------------------------- ownership

  /** The connection a call has to itself: taken out of circulation by the locked section of Close,
      or received from the idle channel and not yet reused. -1 when there is none. */
  function Held(call: Call): int {
    match call
    case Closing(c, _) => c
    case Releasing(c, _) => c
    case Offering(c) => c
    case Rejecting(c) => c
    case Shutting(c) => c
    case Reshutting(c) => c
    case Checking(c) => c
    case Discarding(c) => c
    case Evicting(c) => c
    case Hitting(c) => c
    case Reusing(c) => c
    case _ => -1
  }

  /** Calls on whose path the connection may still become idle or be handed out again. */
  predicate MayReuse(call: Call) {
    match call
    case Closing(_, half) => !half
    case Releasing(_, half) => !half
    case Offering(_) => true
    case Checking(_) => true
    case Hitting(_) => true
    case Reusing(_) => true
    case _ => false
  }

  predicate InsideGet(call: Call) {
    call.Getting? || call.Checking? || call.Discarding? || call.Evicting? || call.Hitting? || call.Missing?
  }

  ghost predicate ConnOk(c: Conn) {
    && (c.fin <==> c.halfClosed)
    && (!c.returned ==> !c.closed)
  }

  /** An idle connection: handed back, never sent a FIN, still open. */
  ghost predicate Clean(c: Conn) {
    c.returned && !c.halfClosed && !c.fin && !c.closed
  }

  ghost predicate IdleOk(w: World) {
    && (forall i :: 0 <= i < |w.idle| ==> w.idle[i] < |w.conns| && Clean(w.conns[w.idle[i]]))
    && (forall i, j :: 0 <= i < j < |w.idle| ==> w.idle[i] != w.idle[j])
  }

  ghost predicate CallsOk(w: World) {
    && (forall k :: 0 <= k < |w.calls| && Held(w.calls[k]) >= 0 ==>
          Held(w.calls[k]) < |w.conns| && w.conns[Held(w.calls[k])].returned)
    && (forall k :: 0 <= k < |w.calls| && Held(w.calls[k]) >= 0 && MayReuse(w.calls[k]) ==>
          Held(w.calls[k]) < |w.conns| && Clean(w.conns[Held(w.calls[k])]))
    && (forall k, m :: 0 <= k < m < |w.calls| && Held(w.calls[k]) >= 0 ==>
          Held(w.calls[k]) != Held(w.calls[m]))
    && (forall k, i :: 0 <= k < |w.calls| && 0 <= i < |w.idle| ==> Held(w.calls[k]) != w.idle[i])
  }

  ghost predicate IsHeld(w: World, c: nat) {
    exists k :: 0 <= k < |w.calls| && Held(w.calls[k]) == c
  }

  /** Every connection is checked out, idle, in the hands of one call, or closed. */
  ghost predicate Placed(w: World) {
    forall c :: 0 <= c < |w.conns| ==>
      !w.conns[c].returned || c in w.idle || IsHeld(w, c) || w.conns[c].closed
  }

  ghost predicate Inv(cfg: Config, w: World) {
    && (forall c :: 0 <= c < |w.conns| ==> ConnOk(w.conns[c]))
    && IdleOk(w) && CallsOk(w) && Placed(w)
    && |w.idle| <= cfg.maxIdle
  }

  /** What every step does to the other calls: nothing, so what they hold stays held. */
  lemma {:induction false} HeldElsewhere(w: World, v: World, k: nat)
    requires |w.calls| <= |v.calls|
    requires forall m :: 0 <= m < |w.calls| && m != k ==> v.calls[m] == w.calls[m]
    ensures forall d: nat :: IsHeld(w, d) && !(k < |w.calls| && Held(w.calls[k]) == d) ==> IsHeld(v, d)
  {
    forall d: nat | IsHeld(w, d) && !(k < |w.calls| && Held(w.calls[k]) == d) ensures IsHeld(v, d) {
      var m :| 0 <= m < |w.calls| && Held(w.calls[m]) == d;
      assert Held(v.calls[m]) == d;
    }
  }

  /** The connection that Close marks as returned is held by the new call. */
  lemma {:induction false} StartPlaces(w: World, v: World, c: nat)
    requires Placed(w) && |v.conns| == |w.conns| && v.idle == w.idle && |v.calls| == |w.calls| + 1
    requires forall m :: 0 <= m < |w.calls| ==> v.calls[m] == w.calls[m]
    requires forall d :: 0 <= d < |w.conns| && d != c ==> v.conns[d] == w.conns[d]
    requires Held(v.calls[|w.calls|]) == c
    ensures Placed(v)
  {
    HeldElsewhere(w, v, |w.calls|);
    assert IsHeld(v, c);
  }

  /** When connections stay as they are or are added as checked out, and no call lets go of one, all
      keep their places. */
  lemma {:induction false} KeepPlaces(w: World, v: World, k: nat)
    requires Placed(w) && |w.conns| <= |v.conns| && v.idle == w.idle && |w.calls| <= |v.calls|
    requires forall m :: 0 <= m < |w.calls| && m != k ==> v.calls[m] == w.calls[m]
    requires k < |w.calls| ==> Held(w.calls[k]) == -1
    requires forall d :: 0 <= d < |w.conns| ==> v.conns[d] == w.conns[d]
    requires forall d :: |w.conns| <= d < |v.conns| ==> !v.conns[d].returned
    ensures Placed(v)
  {
    HeldElsewhere(w, v, k);
  }

  lemma {:induction false} CloseKeepsCalls(w: World, v: World, c: nat)
    requires CallsOk(w) && IdleOk(w) && c < |w.conns| && !w.conns[c].returned && ConnOk(w.conns[c])
    requires v.conns == w.conns[c := w.conns[c].(returned := true)] && v.idle == w.idle
    requires v.calls == w.calls + [Closing(c, w.conns[c].halfClosed)]
    ensures CallsOk(v)
  {
    assert forall m :: 0 <= m < |w.calls| ==> Held(w.calls[m]) != c;
  }

  lemma {:induction false} CloseKeepsInv(cfg: Config, w: World, c: nat)
    requires Inv(cfg, w)
    ensures Inv(cfg, Do(cfg, w, Close(c)))
  {
    if c < |w.conns| && !w.conns[c].returned {
      StartPlaces(w, Do(cfg, w, Close(c)), c);
      CloseKeepsCalls(w, Do(cfg, w, Close(c)), c);
    }
  }

  lemma {:induction false} CloseWriteKeepsInv(cfg: Config, w: World, c: nat)
    requires Inv(cfg, w)
    ensures Inv(cfg, Do(cfg, w, CloseWrite(c)))
  {
    HeldElsewhere(w, Do(cfg, w, CloseWrite(c)), |w.calls|);
  }

  lemma {:induction false} DialKeepsInv(cfg: Config, w: World, v: World)
    requires Inv(cfg, w) && v.conns == w.conns && v.idle == w.idle
    requires |v.calls| == |w.calls| + 1 && v.calls[..|w.calls|] == w.calls && Held(v.calls[|w.calls|]) == -1
    ensures Inv(cfg, v)
  {
    assert forall m :: 0 <= m < |w.calls| ==> v.calls[m] == w.calls[m];
    KeepPlaces(w, v, |w.calls|);
  }

  /** A step that moves no connection: the call goes on holding what it held, and does not gain
      the right to reuse it. */
  lemma {:induction false} MoveKeepsInv(cfg: Config, w: World, v: World, k: nat, next: Call)
    requires Inv(cfg, w) && k < |w.calls|
    requires v.conns == w.conns && v.idle == w.idle && v.calls == w.calls[k := next]
    requires Held(next) == Held(w.calls[k]) && (MayReuse(next) ==> MayReuse(w.calls[k]))
    ensures Inv(cfg, v)
  {
    HeldElsewhere(w, v, k);
    assert Held(v.calls[k]) == Held(w.calls[k]);
  }

  /** Closing the socket of a held connection. */
  lemma {:induction false} ShutKeepsInv(cfg: Config, w: World, v: World, k: nat, c: nat, next: Call)
    requires Inv(cfg, w) && k < |w.calls| && Held(w.calls[k]) == c < |w.conns|
    requires v.conns == w.conns[c := w.conns[c].(closed := true)] && v.idle == w.idle
    requires v.calls == w.calls[k := next] && (Held(next) == c || Held(next) == -1) && !MayReuse(next)
    ensures Inv(cfg, v)
  {
    HeldElsewhere(w, v, k);
  }

  lemma {:induction false} SendPlaces(w: World, v: World, k: nat, c: nat)
    requires Placed(w) && k < |w.calls| && Held(w.calls[k]) == c
    requires v.conns == w.conns && v.idle == w.idle + [c] && v.calls == w.calls[k := Sent(c)]
    ensures Placed(v)
  {
    HeldElsewhere(w, v, k);
    assert v.idle[|w.idle|] == c;
  }

  lemma {:induction false} SendKeepsCalls(w: World, v: World, k: nat, c: nat)
    requires CallsOk(w) && k < |w.calls| && Held(w.calls[k]) == c
    requires v.conns == w.conns && v.idle == w.idle + [c] && v.calls == w.calls[k := Sent(c)]
    ensures CallsOk(v)
  {
    assert forall m :: 0 <= m < |w.calls| && m != k ==> Held(w.calls[m]) != c;
  }

  /** put sends the held connection to the idle channel. */
  lemma {:induction false} SendKeepsInv(cfg: Config, w: World, v: World, k: nat, c: nat)
    requires Inv(cfg, w) && k < |w.calls| && w.calls[k] == Offering(c) && |w.idle| < cfg.maxIdle
    requires v.conns == w.conns && v.idle == w.idle + [c] && v.calls == w.calls[k := Sent(c)]
    ensures Inv(cfg, v)
  {
    assert Held(w.calls[k]) == c && MayReuse(w.calls[k]);
    SendPlaces(w, v, k, c);
    SendKeepsCalls(w, v, k, c);
  }

  lemma {:induction false} ReceivePlaces(w: World, v: World, k: nat)
    requires Placed(w) && k < |w.calls| && w.calls[k] == Getting && w.idle != []
    requires v.conns == w.conns && v.idle == w.idle[1..] && v.calls == w.calls[k := Checking(w.idle[0])]
    ensures Placed(v)
  {
    HeldElsewhere(w, v, k);
    assert Held(v.calls[k]) == w.idle[0];
    forall d | 0 <= d < |w.conns| && d in w.idle ensures d in v.idle || IsHeld(v, d) {
      if d != w.idle[0] {
        var i :| 0 <= i < |w.idle| && w.idle[i] == d;
        assert v.idle[i - 1] == d;
      }
    }
  }

  /** get receives the oldest idle connection. */
  lemma {:induction false} ReceiveKeepsInv(cfg: Config, w: World, v: World, k: nat)
    requires Inv(cfg, w) && k < |w.calls| && w.calls[k] == Getting && w.idle != []
    requires v.conns == w.conns && v.idle == w.idle[1..] && v.calls == w.calls[k := Checking(w.idle[0])]
    ensures Inv(cfg, v)
  {
    ReceivePlaces(w, v, k);
    assert Held(v.calls[k]) == w.idle[0];
  }

  /** get marks the held connection as checked out. */
  lemma {:induction false} ReuseKeepsInv(cfg: Config, w: World, v: World, k: nat, c: nat, now: int)
    requires Inv(cfg, w) && k < |w.calls| && w.calls[k] == Reusing(c) && c < |w.conns|
    requires v.conns == w.conns[c := w.conns[c].(returned := false, lastUsed := now)] && v.idle == w.idle
    requires v.calls == w.calls[k := Activating(c)]
    ensures Inv(cfg, v)
  {
    HeldElsewhere(w, v, k);
    assert Held(w.calls[k]) == c && MayReuse(w.calls[k]);
  }

  /** The dialer delivers a new connection. */
  lemma {:induction false} ConnectKeepsInv(cfg: Config, w: World, v: World, k: nat, made: Conn)
    requires Inv(cfg, w) && k < |w.calls| && w.calls[k] == Waiting
    requires !made.returned && ConnOk(made)
    requires v.conns == w.conns + [made] && v.idle == w.idle
    requires v.calls == w.calls[k := Activating(|w.conns|)]
    ensures Inv(cfg, v)
  {
    KeepPlaces(w, v, k);
  }

  lemma {:induction false} CloseStepKeepsInv(cfg: Config, w: World, k: nat, now: int)
    requires Inv(cfg, w) && k < |w.calls| && InClose(w.calls[k])
    ensures Inv(cfg, StepClose(cfg, w, k, now))
  {
    var v, call := StepClose(cfg, w, k, now), w.calls[k];
    assert Held(call) >= 0 ==> Held(call) < |w.conns|;
    if call.Shutting? {
      ShutKeepsInv(cfg, w, v, k, call.c, Reshutting(call.c));
    } else if call.Reshutting? || (call.Releasing? && (!cfg.pooling || call.half)) {
      ShutKeepsInv(cfg, w, v, k, call.c, Done);
    } else if call.Offering? && |w.idle| < cfg.maxIdle {
      SendKeepsInv(cfg, w, v, k, call.c);
    } else {
      MoveKeepsInv(cfg, w, v, k, v.calls[k]);
    }
  }

  lemma {:induction false} GetStepKeepsInv(cfg: Config, w: World, k: nat, now: int, good: bool)
    requires Inv(cfg, w) && k < |w.calls| && !InClose(w.calls[k]) && !InDial(w.calls[k])
    ensures Inv(cfg, StepGet(cfg, w, k, now, good))
  {
    var v, call := StepGet(cfg, w, k, now, good), w.calls[k];
    assert Held(call) >= 0 ==> Held(call) < |w.conns|;
    if call.Evicting? {
      ShutKeepsInv(cfg, w, v, k, call.c, Getting);
    } else if call.Getting? && w.idle != [] {
      ReceiveKeepsInv(cfg, w, v, k);
    } else if call.Reusing? {
      ReuseKeepsInv(cfg, w, v, k, call.c, now);
    } else {
      MoveKeepsInv(cfg, w, v, k, v.calls[k]);
    }
  }

  lemma {:induction false} StepKeepsInv(cfg: Config, w: World, k: nat, now: int, good: bool)
    requires Inv(cfg, w) && k < |w.calls|
    ensures Inv(cfg, StepCall(cfg, w, k, now, good))
  {
    var call := w.calls[k];
    if InClose(call) {
      CloseStepKeepsInv(cfg, w, k, now);
    } else if !InDial(call) {
      GetStepKeepsInv(cfg, w, k, now, good);
    } else if call.Waiting? && good {
      ConnectKeepsInv(cfg, w, StepDial(w, k, now, good), k, Conn(false, false, false, false, now, now));
    } else if !call.Done? {
      MoveKeepsInv(cfg, w, StepDial(w, k, now, good), k, StepDial(w, k, now, good).calls[k]);
    }
  }

  lemma {:induction false} RunKeepsInv(cfg: Config, actions: seq<Action>)
    ensures Inv(cfg, Run(cfg, actions))
  {
    if actions == [] {
    } else {
      var w := Run(cfg, actions[..|actions| - 1]);
      RunKeepsInv(cfg, actions[..|actions| - 1]);
      match actions[|actions| - 1]
      case Close(c) => CloseKeepsInv(cfg, w, c);
      case CloseWrite(c) => CloseWriteKeepsInv(cfg, w, c);
      case Dial => DialKeepsInv(cfg, w, Do(cfg, w, Dial));
      case Advance(k, now, good) =>
        if k < |w.calls| {
          StepKeepsInv(cfg, w, k, now, good);
        }
    }
  }

  /** For every interleaving: a connection in the idle channel is marked returned, has never sent a
      FIN, is open, is held by no call, and is in the channel only once. */
  lemma {:induction false} IdleIsClean(cfg: Config, actions: seq<Action>)
    ensures var w := Run(cfg, actions);
      && |w.idle| <= cfg.maxIdle
      && (forall i :: 0 <= i < |w.idle| ==>
            w.idle[i] < |w.conns| && Clean(w.conns[w.idle[i]]) && !IsHeld(w, w.idle[i]))
      && (forall i, j :: 0 <= i < j < |w.idle| ==> w.idle[i] != w.idle[j])
  {
    RunKeepsInv(cfg, actions);
  }

  /** Every connection ever dialled is in one place: checked out, idle, held by one call, or closed. */
  lemma {:induction false} EveryConnectionIsPlaced(cfg: Config, actions: seq<Action>, c: nat)
    requires c < |Run(cfg, actions).conns|
    ensures var w := Run(cfg, actions);
      && (!w.conns[c].returned || c in w.idle || IsHeld(w, c) || w.conns[c].closed)
      && (!w.conns[c].returned ==> c !in w.idle && !IsHeld(w, c) && !w.conns[c].closed)
      && (c in w.idle ==> !IsHeld(w, c) && !w.conns[c].closed)
      && (forall k, m :: 0 <= k < m < |w.calls| && Held(w.calls[k]) == c ==> Held(w.calls[m]) != c)
  {
    RunKeepsInv(cfg, actions);
  }

  // ---------------------------------------------------------------- conservation

  function CheckedOut(c: Conn): int { if c.returned then 0 else 1 }

  /** Connections a call has moved through the channel but not yet entered in the counters. */
  function Uncounted(call: Call): int {
    if call.Sent? then 1 else if call.Checking? || call.Discarding? || call.Hitting? then -1 else 0
  }

  /** Calls whose change to activeConns is still to come. */
  function Unsettled(call: Call): int {
    if call.Closing? then 1 else if call.Activating? then -1 else 0
  }

  function Searching(call: Call): int { if InsideGet(call) then 1 else 0 }

  function AboutToDial(call: Call): int { if call.Dialing? then 1 else 0 }

  function InDialer(call: Call): int { if call.Waiting? then 1 else 0 }

  ghost predicate Books(cfg: Config, w: World) {
    && w.returned + Tally(w.calls, Uncounted) == w.hits + w.getDrops + |w.idle|
    && w.dropped == w.getDrops + w.putDrops
    && w.active == Tally(w.conns, CheckedOut) + Tally(w.calls, Unsettled)
    && (cfg.pooling ==> w.hits + w.misses + Tally(w.calls, Searching) == w.dials)
    && (cfg.pooling ==> w.total + Tally(w.calls, AboutToDial) == w.misses)
    && |w.conns| + w.failures + Tally(w.calls, InDialer) == w.total
  }

  lemma {:induction false} GotoTallies(w: World, k: nat, next: Call)
    requires k < |w.calls|
    ensures Tally(w.calls[k := next], Uncounted) == Tally(w.calls, Uncounted) - Uncounted(w.calls[k]) + Uncounted(next)
    ensures Tally(w.calls[k := next], Unsettled) == Tally(w.calls, Unsettled) - Unsettled(w.calls[k]) + Unsettled(next)
    ensures Tally(w.calls[k := next], Searching) == Tally(w.calls, Searching) - Searching(w.calls[k]) + Searching(next)
    ensures Tally(w.calls[k := next], AboutToDial)
         == Tally(w.calls, AboutToDial) - AboutToDial(w.calls[k]) + AboutToDial(next)
    ensures Tally(w.calls[k := next], InDialer) == Tally(w.calls, InDialer) - InDialer(w.calls[k]) + InDialer(next)
  {
    TallyUpdate(w.calls, k, next, Uncounted);
    TallyUpdate(w.calls, k, next, Unsettled);
    TallyUpdate(w.calls, k, next, Searching);
    TallyUpdate(w.calls, k, next, AboutToDial);
    TallyUpdate(w.calls, k, next, InDialer);
  }

  lemma {:induction false} StartTallies(w: World, call: Call)
    ensures Tally(w.calls + [call], Uncounted) == Tally(w.calls, Uncounted) + Uncounted(call)
    ensures Tally(w.calls + [call], Unsettled) == Tally(w.calls, Unsettled) + Unsettled(call)
    ensures Tally(w.calls + [call], Searching) == Tally(w.calls, Searching) + Searching(call)
    ensures Tally(w.calls + [call], AboutToDial) == Tally(w.calls, AboutToDial) + AboutToDial(call)
    ensures Tally(w.calls + [call], InDialer) == Tally(w.calls, InDialer) + InDialer(call)
  {
    TallyAppend(w.calls, call, Uncounted);
    TallyAppend(w.calls, call, Unsettled);
    TallyAppend(w.calls, call, Searching);
    TallyAppend(w.calls, call, AboutToDial);
    TallyAppend(w.calls, call, InDialer);
  }

  /** A step of one call, as changes to the two sides of each account. */
  ghost predicate Settles(cfg: Config, w: World, v: World, call: Call, next: Call) {
    && v.returned + Uncounted(next) - v.hits - v.getDrops - |v.idle|
       == w.returned + Uncounted(call) - w.hits - w.getDrops - |w.idle|
    && v.dropped - v.getDrops - v.putDrops == w.dropped - w.getDrops - w.putDrops
    && v.active - Tally(v.conns, CheckedOut) - Unsettled(next)
       == w.active - Tally(w.conns, CheckedOut) - Unsettled(call)
    && v.hits + v.misses + Searching(next) == w.hits + w.misses + Searching(call)
    && v.total + AboutToDial(next) - v.misses == w.total + AboutToDial(call) - w.misses
    && |v.conns| + v.failures + InDialer(next) - v.total == |w.conns| + w.failures + InDialer(call) - w.total
    && v.dials == w.dials
  }

  ghost predicate Settled(cfg: Config, w: World, v: World, k: nat)
    requires k < |w.calls|
  {
    && |v.calls| == |w.calls| && v.calls == w.calls[k := v.calls[k]]
    && Settles(cfg, w, v, w.calls[k], v.calls[k])
  }

  ghost predicate HolderOk(w: World, call: Call) {
    Held(call) >= 0 ==> Held(call) < |w.conns| && w.conns[Held(call)].returned
  }

  lemma {:induction false} ShutSettles(cfg: Config, w: World, k: nat, c: nat, next: Call)
    requires k < |w.calls| && c < |w.conns|
    requires Settles(cfg, w, w, w.calls[k], next)
    ensures Settled(cfg, w, Shut(w, k, c, next), k)
  {
    TallyUpdate(w.conns, c, w.conns[c].(closed := true), CheckedOut);
  }

  lemma {:induction false} ReleaseSettles(cfg: Config, w: World, k: nat, now: int)
    requires k < |w.calls| && w.calls[k].Releasing? && HolderOk(w, w.calls[k])
    ensures Settled(cfg, w, StepClose(cfg, w, k, now), k)
  {
    ShutSettles(cfg, w, k, w.calls[k].c, Done);
  }

  lemma PutSettles(cfg: Config, w: World, k: nat, now: int)
    requires k < |w.calls| && (w.calls[k].Closing? || w.calls[k].Offering? || w.calls[k].Sent? || w.calls[k].Rejecting?)
    ensures Settled(cfg, w, StepClose(cfg, w, k, now), k)
  {
  }

  lemma {:induction false} CloseSettles(cfg: Config, w: World, k: nat, now: int)
    requires k < |w.calls| && InClose(w.calls[k]) && HolderOk(w, w.calls[k])
    ensures Settled(cfg, w, StepClose(cfg, w, k, now), k)
  {
    match w.calls[k]
    case Releasing(_, _) => ReleaseSettles(cfg, w, k, now);
    case Shutting(c) => ShutSettles(cfg, w, k, c, Reshutting(c));
    case Reshutting(c) => ShutSettles(cfg, w, k, c, Done);
    case _ => PutSettles(cfg, w, k, now);
  }

  lemma ReceiveSettles(cfg: Config, w: World, k: nat, now: int, good: bool)
    requires k < |w.calls| && (w.calls[k].Getting? || w.calls[k].Missing?)
    ensures Settled(cfg, w, StepGet(cfg, w, k, now, good), k)
  {
  }

  lemma JudgeSettles(cfg: Config, w: World, k: nat, now: int, good: bool)
    requires k < |w.calls| && (w.calls[k].Checking? || w.calls[k].Discarding? || w.calls[k].Hitting?)
    ensures Settled(cfg, w, StepGet(cfg, w, k, now, good), k)
  {
  }

  lemma {:induction false} ReuseSettles(cfg: Config, w: World, k: nat, now: int, good: bool)
    requires k < |w.calls| && w.calls[k].Reusing? && HolderOk(w, w.calls[k])
    ensures Settled(cfg, w, StepGet(cfg, w, k, now, good), k)
  {
    var c := w.calls[k].c;
    TallyUpdate(w.conns, c, w.conns[c].(returned := false, lastUsed := now), CheckedOut);
  }

  lemma {:induction false} GetSettles(cfg: Config, w: World, k: nat, now: int, good: bool)
    requires k < |w.calls| && !InClose(w.calls[k]) && !InDial(w.calls[k]) && HolderOk(w, w.calls[k])
    ensures Settled(cfg, w, StepGet(cfg, w, k, now, good), k)
  {
    match w.calls[k]
    case Getting => ReceiveSettles(cfg, w, k, now, good);
    case Missing => ReceiveSettles(cfg, w, k, now, good);
    case Evicting(c) => ShutSettles(cfg, w, k, c, Getting);
    case Reusing(_) => ReuseSettles(cfg, w, k, now, good);
    case _ => JudgeSettles(cfg, w, k, now, good);
  }

  lemma {:induction false} DialSettles(cfg: Config, w: World, k: nat, now: int, good: bool)
    requires k < |w.calls| && InDial(w.calls[k])
    ensures Settled(cfg, w, StepDial(w, k, now, good), k)
  {
    TallyAppend(w.conns, Conn(false, false, false, false, now, now), CheckedOut);
  }

  lemma {:induction false} StepKeepsBooks(cfg: Config, w: World, k: nat, now: int, good: bool)
    requires Inv(cfg, w) && Books(cfg, w) && k < |w.calls|
    ensures Books(cfg, StepCall(cfg, w, k, now, good))
  {
    if InClose(w.calls[k]) {
      CloseSettles(cfg, w, k, now);
    } else if InDial(w.calls[k]) {
      DialSettles(cfg, w, k, now, good);
    } else {
      GetSettles(cfg, w, k, now, good);
    }
    GotoTallies(w, k, StepCall(cfg, w, k, now, good).calls[k]);
  }

  lemma {:induction false} CloseKeepsBooks(cfg: Config, w: World, c: nat)
    requires Books(cfg, w)
    ensures Books(cfg, Do(cfg, w, Close(c)))
  {
    if c < |w.conns| {
      TallyUpdate(w.conns, c, w.conns[c].(returned := true), CheckedOut);
      StartTallies(w, Closing(c, w.conns[c].halfClosed));
    }
  }

  lemma {:induction false} CloseWriteKeepsBooks(cfg: Config, w: World, c: nat)
    requires Books(cfg, w)
    ensures Books(cfg, Do(cfg, w, CloseWrite(c)))
  {
    if c < |w.conns| {
      TallyUpdate(w.conns, c, w.conns[c].(halfClosed := true, fin := true), CheckedOut);
    }
  }

  lemma {:induction false} DialKeepsBooks(cfg: Config, w: World)
    requires Books(cfg, w)
    ensures Books(cfg, Do(cfg, w, Dial))
  {
    StartTallies(w, if cfg.pooling then Getting else Dialing);
  }

  lemma {:induction false} DoKeepsBooks(cfg: Config, w: World, a: Action)
    requires Inv(cfg, w) && Books(cfg, w)
    ensures Books(cfg, Do(cfg, w, a))
  {
    match a
    case Close(c) => CloseKeepsBooks(cfg, w, c);
    case CloseWrite(c) => CloseWriteKeepsBooks(cfg, w, c);
    case Dial => DialKeepsBooks(cfg, w);
    case Advance(k, now, good) =>
      if k < |w.calls| {
        StepKeepsBooks(cfg, w, k, now, good);
      }
  }

  /** The counters account for every connection and every call, in every reachable state. */
  lemma {:induction false} RunKeepsBooks(cfg: Config, actions: seq<Action>)
    ensures Books(cfg, Run(cfg, actions))
  {
    if actions == [] {
    } else {
      RunKeepsInv(cfg, actions[..|actions| - 1]);
      RunKeepsBooks(cfg, actions[..|actions| - 1]);
      DoKeepsBooks(cfg, Run(cfg, actions[..|actions| - 1]), actions[|actions| - 1]);
    }
  }

  /** Whenever no call is in progress the books balance exactly: every return is a hit, an idle
      connection or a drop by get; every Dial was a hit or a miss, and every miss tried the network;
      and activeConns is the number of connections not handed back. */
  lemma {:induction false} QuiescentBooks(cfg: Config, actions: seq<Action>)
    requires forall k :: 0 <= k < |Run(cfg, actions).calls| ==> Run(cfg, actions).calls[k].Done?
    ensures var w := Run(cfg, actions);
      && w.returned == w.hits + |w.idle| + w.getDrops
      && w.dropped == w.getDrops + w.putDrops
      && w.active == Tally(w.conns, CheckedOut)
      && (cfg.pooling ==> w.hits + w.misses == w.dials && w.total == w.misses)
      && |w.conns| + w.failures == w.total
  {
    var w := Run(cfg, actions);
    RunKeepsBooks(cfg, actions);
    TallyZero(w.calls, Uncounted);
    TallyZero(w.calls, Unsettled);
    TallyZero(w.calls, Searching);
    TallyZero(w.calls, AboutToDial);
    TallyZero(w.calls, InDialer);
  }
}
