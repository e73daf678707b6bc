/** The L4 proxy over a connection pool: any number of handleConnection calls, each dialling the
    backend, relaying both directions over the connection it got, and closing it at the end.

    The pool sees exactly the calls the handlers make: Dial when a connection is accepted, CloseWrite
    when the client-to-backend copy is over, Close when both copies are. */
module Layer4 {
  import P = ConnPool
  import R = Relay
  import opened Counting

  /** A handler inside Dial (its call number), past a failed Dial, or relaying over connection c. */
  datatype Handler = Dialing(call: nat) | Gone | Relaying(c: nat, relay: R.Relay)

  /** trace is every pool action so far, in order; the pool is where that trace leads. */
  datatype Proxy = Proxy(trace: seq<P.Action>, handlers: seq<Handler>)

  const START := Proxy([], [])

  function Pool(cfg: P.Config, p: Proxy): P.World {
    P.Run(cfg, p.trace)
  }

  datatype Action =
    | Accept                                     // a handler starts and calls Dial
    | Inside(k: nat, now: int, good: bool)       // a pool call already in progress takes a step
    | Connected(h: nat)                          // Dial returns a connection to its handler
    | Refused(h: nat)                            // Dial returned an error
    | Copy(h: nat, a: R.Action)                  // the peers, the copy loops, the half-closes
    | Leave(h: nat)                              // both copies are over: the deferred Close of the backend

  function With(p: Proxy, h: nat, next: Handler): Proxy
    requires h < |p.handlers|
  {
    p.(handlers := p.handlers[h := next])
  }

  /** Whether this step half-closes the backend connection. */
  predicate HalfCloses(r: R.Relay, b: R.Action) {
    b == R.Up(R.CloseWrite) && r.up.phase.Ended?
  }

  function Do(cfg: P.Config, p: Proxy, a: Action): Proxy {
    var pool := Pool(cfg, p);
    match a
    case Accept =>
      Proxy(p.trace + [P.Dial], p.handlers + [Dialing(|pool.calls|)])
    case Inside(k, now, good) =>
      if k < |pool.calls| && !pool.calls[k].Activating?
      then p.(trace := p.trace + [P.Advance(k, now, good)]) else p
    case Connected(h) =>
      if h < |p.handlers| && p.handlers[h].Dialing? && p.handlers[h].call < |pool.calls|
         && pool.calls[p.handlers[h].call].Activating?
      then
        With(p, h, Relaying(pool.calls[p.handlers[h].call].c, R.START))
          .(trace := p.trace + [P.Advance(p.handlers[h].call, 0, true)])
      else p
    case Refused(h) =>
      if h < |p.handlers| && p.handlers[h].Dialing? && p.handlers[h].call < |pool.calls|
         && pool.calls[p.handlers[h].call].Done?
      then With(p, h, Gone) else p
    case Copy(h, b) =>
      if h < |p.handlers| && p.handlers[h].Relaying? && !b.CloseBackend?
      then
        var Relaying(c, relay) := p.handlers[h];
        With(p, h, Relaying(c, R.Step(relay, b)))
          .(trace := if HalfCloses(relay, b) then p.trace + [P.CloseWrite(c)] else p.trace)
      else p
    case Leave(h) =>
      if h < |p.handlers| && p.handlers[h].Relaying? && !p.handlers[h].relay.backend.closed
         && p.handlers[h].relay.up.phase.Finished? && p.handlers[h].relay.down.phase.Finished?
      then
        With(p, h, Relaying(p.handlers[h].c, R.Step(p.handlers[h].relay, R.CloseBackend)))
          .(trace := p.trace + [P.Close(p.handlers[h].c)])
      else p
  }

  function Run(cfg: P.Config, actions: seq<Action>): Proxy {
    if actions == [] then START else Do(cfg, Run(cfg, actions[..|actions| - 1]), actions[|actions| - 1])
  }

  // ---------------------------------------------------------------- invariant

  /** Where a pool call can be when no connection is ever handed back. */
  ghost predicate Expected(call: P.Call) {
    match call
    case Closing(_, half) => half
    case Releasing(_, half) => half
    case Getting => true
    case Missing => true
    case Dialing => true
    case Waiting => true
    case Activating(_) => true
    case Done => true
    case _ => false
  }

  ghost predicate PoolUnused(w: P.World) {
    && w.idle == [] && w.hits == 0 && w.returned == 0 && w.dropped == 0
    && (forall k :: 0 <= k < |w.calls| ==> Expected(w.calls[k]))
  }

  /** A handler and its connection agree: until the handler leaves, the connection is checked out and
      has a FIN exactly when the relay has shut it; afterwards it is handed back with its FIN sent. */
  ghost predicate HandlerOk(w: P.World, h: Handler) {
    h.Relaying? ==>
      && R.Inv(h.relay) && h.c < |w.conns|
      && (!h.relay.backend.closed ==> !w.conns[h.c].returned && (w.conns[h.c].fin <==> h.relay.backend.writeShut))
      && (h.relay.backend.closed ==> w.conns[h.c].returned && w.conns[h.c].fin)
  }

  /** A connection that Dial is about to hand out: checked out, no FIN, and nobody relays over it. */
  ghost predicate CallOk(w: P.World, hs: seq<Handler>, call: P.Call) {
    call.Activating? ==>
      && call.c < |w.conns| && !w.conns[call.c].returned && !w.conns[call.c].fin
      && (forall h :: 0 <= h < |hs| && hs[h].Relaying? ==> hs[h].c != call.c)
  }

  /** No two handlers relay over one connection, and no two calls are about to hand out the same. */
  ghost predicate Apart(calls: seq<P.Call>, hs: seq<Handler>) {
    && (forall h, g :: 0 <= h < g < |hs| && hs[h].Relaying? && hs[g].Relaying? ==> hs[h].c != hs[g].c)
    && (forall k, m :: 0 <= k < m < |calls| && calls[k].Activating? && calls[m].Activating? ==>
          calls[k].c != calls[m].c)
  }

  ghost predicate Good(w: P.World, hs: seq<Handler>) {
    && PoolUnused(w)
    && (forall h :: 0 <= h < |hs| ==> HandlerOk(w, hs[h]))
    && (forall k :: 0 <= k < |w.calls| ==> CallOk(w, hs, w.calls[k]))
    && Apart(w.calls, hs)
  }

  ghost predicate Inv(cfg: P.Config, p: Proxy) {
    Good(Pool(cfg, p), p.handlers)
  }

  // ---------------------------------------------------------------- steps of the pool

  /** Nobody's connection is handed back or gets a FIN, new ones are checked out and without one. */
  ghost predicate Keeps(w: P.World, v: P.World) {
    && |w.conns| <= |v.conns|
    && (forall c :: 0 <= c < |w.conns| ==>
          v.conns[c].returned == w.conns[c].returned && v.conns[c].fin == w.conns[c].fin)
  }

  /** What a call in progress does while the pool is unused: it hands out nothing, or a new connection. */
  ghost predicate Advances(w: P.World, v: P.World, k: nat) {
    && k < |w.calls| == |v.calls|
    && (forall m :: 0 <= m < |w.calls| && m != k ==> v.calls[m] == w.calls[m])
    && (v.calls[k].Activating? ==>
          v.calls[k].c == |w.conns| < |v.conns| && !v.conns[|w.conns|].returned && !v.conns[|w.conns|].fin)
  }

  lemma {:induction false} AdvanceKeepsUnused(cfg: P.Config, w: P.World, k: nat, now: int, good: bool)
    requires PoolUnused(w) && k < |w.calls|
    requires P.Held(w.calls[k]) >= 0 ==> P.Held(w.calls[k]) < |w.conns|
    ensures PoolUnused(P.Do(cfg, w, P.Advance(k, now, good)))
  {
    assert Expected(w.calls[k]);
  }

  lemma {:induction false} AdvanceKeepsConns(cfg: P.Config, w: P.World, k: nat, now: int, good: bool)
    requires PoolUnused(w) && k < |w.calls|
    requires P.Held(w.calls[k]) >= 0 ==> P.Held(w.calls[k]) < |w.conns|
    ensures var v := P.Do(cfg, w, P.Advance(k, now, good));
      Keeps(w, v) && Advances(w, v, k) && (w.calls[k].Activating? ==> v.calls[k].Done? && v.conns == w.conns)
  {
    assert Expected(w.calls[k]);
  }

  /** One more step of a call other than the last one of Dial. */
  lemma {:induction false} AdvanceKeepsGood(w: P.World, v: P.World, hs: seq<Handler>, k: nat)
    requires Good(w, hs) && PoolUnused(v) && Keeps(w, v) && Advances(w, v, k)
    ensures Good(v, hs)
  {
    forall m | 0 <= m < |v.calls| ensures CallOk(v, hs, v.calls[m]) {
      if m != k {
        assert CallOk(w, hs, w.calls[m]);
      } else {
        assert forall h :: 0 <= h < |hs| ==> HandlerOk(w, hs[h]);
      }
    }
    assert forall m :: 0 <= m < |w.calls| ==> CallOk(w, hs, w.calls[m]);
    HandlersSurvive(w, v, hs);
  }

  lemma {:induction false} HandlersSurvive(w: P.World, v: P.World, hs: seq<Handler>)
    requires Keeps(w, v) && forall h :: 0 <= h < |hs| ==> HandlerOk(w, hs[h])
    ensures forall h :: 0 <= h < |hs| ==> HandlerOk(v, hs[h])
  {
    forall h | 0 <= h < |hs| ensures HandlerOk(v, hs[h]) {
      assert HandlerOk(w, hs[h]);
    }
  }

  lemma {:induction false} PoolStepKeepsInv(cfg: P.Config, p: Proxy, k: nat, now: int, good: bool)
    requires Inv(cfg, p)
    ensures Inv(cfg, Do(cfg, p, Inside(k, now, good)))
  {
    var w := Pool(cfg, p);
    if k < |w.calls| {
      InsideSteps(cfg, p, k, now, good);
      AdvanceKeepsGood(w, P.Run(cfg, p.trace + [P.Advance(k, now, good)]), p.handlers, k);
    }
  }

  lemma {:induction false} InsideSteps(cfg: P.Config, p: Proxy, k: nat, now: int, good: bool)
    requires Inv(cfg, p) && k < |Pool(cfg, p).calls|
    ensures var w, v := Pool(cfg, p), P.Run(cfg, p.trace + [P.Advance(k, now, good)]);
      && PoolUnused(v) && Keeps(w, v) && Advances(w, v, k)
      && (w.calls[k].Activating? ==> v.calls[k].Done? && v.conns == w.conns)
  {
    var w := Pool(cfg, p);
    P.RunKeepsInv(cfg, p.trace);
    P.RunMore(cfg, p.trace, P.Advance(k, now, good));
    assert P.Held(w.calls[k]) >= 0 ==> P.Held(w.calls[k]) < |w.conns|;
    AdvanceKeepsUnused(cfg, w, k, now, good);
    AdvanceKeepsConns(cfg, w, k, now, good);
  }

  /** One more call that has no connection yet, and one more handler that waits for it. */
  lemma {:induction false} NewcomerKeepsGood(w: P.World, v: P.World, hs: seq<Handler>, call: P.Call, h: Handler)
    requires Good(w, hs) && PoolUnused(v) && v.conns == w.conns && v.calls == w.calls + [call]
    requires !call.Activating? && !h.Relaying?
    ensures Good(v, hs + [h])
  {
    var after := hs + [h];
    forall k | 0 <= k < |v.calls| ensures CallOk(v, after, v.calls[k]) {
      if k < |w.calls| {
        assert CallOk(w, hs, w.calls[k]);
      }
    }
    forall g | 0 <= g < |after| ensures HandlerOk(v, after[g]) {
      if g < |hs| {
        assert HandlerOk(w, hs[g]);
      }
    }
  }

  lemma {:induction false} AcceptKeepsInv(cfg: P.Config, p: Proxy)
    requires Inv(cfg, p)
    ensures Inv(cfg, Do(cfg, p, Accept))
  {
    var w := Pool(cfg, p);
    var v, call := P.Do(cfg, w, P.Dial), if cfg.pooling then P.Getting else P.Dialing;
    P.RunMore(cfg, p.trace, P.Dial);
    assert PoolUnused(v);
    NewcomerKeepsGood(w, v, p.handlers, call, Dialing(|w.calls|));
  }

  // ---------------------------------------------------------------- steps of a handler

  /** Dial's last step gives its connection to the handler. */
  lemma {:induction false} HandOver(w: P.World, v: P.World, hs: seq<Handler>, k: nat, h: nat)
    requires Good(w, hs) && PoolUnused(v) && v.conns == w.conns && Advances(w, v, k) && v.calls[k].Done?
    requires w.calls[k].Activating? && h < |hs| && !hs[h].Relaying?
    ensures Good(v, hs[h := Relaying(w.calls[k].c, R.START)])
  {
    var c, after := w.calls[k].c, hs[h := Relaying(w.calls[k].c, R.START)];
    assert CallOk(w, hs, w.calls[k]);
    forall m | 0 <= m < |v.calls| ensures CallOk(v, after, v.calls[m]) {
      if m != k {
        assert CallOk(w, hs, w.calls[m]);
      }
    }
    forall g | 0 <= g < |after| ensures HandlerOk(v, after[g]) {
      assert HandlerOk(w, hs[g]);
    }
  }

  lemma {:induction false} ConnectedKeepsInv(cfg: P.Config, p: Proxy, h: nat)
    requires Inv(cfg, p)
    ensures Inv(cfg, Do(cfg, p, Connected(h)))
  {
    var w, q := Pool(cfg, p), Do(cfg, p, Connected(h));
    if q != p {
      var k := p.handlers[h].call;
      InsideSteps(cfg, p, k, 0, true);
      HandOver(w, Pool(cfg, q), p.handlers, k, h);
    }
  }

  lemma {:induction false} RefusedKeepsInv(cfg: P.Config, p: Proxy, h: nat)
    requires Inv(cfg, p)
    ensures Inv(cfg, Do(cfg, p, Refused(h)))
  {
    var w, q := Pool(cfg, p), Do(cfg, p, Refused(h));
    forall k | 0 <= k < |w.calls| ensures CallOk(w, q.handlers, w.calls[k]) {
      assert CallOk(w, p.handlers, w.calls[k]);
    }
  }

  /** Handler h acts on its own connection c: its flags change, and nobody else's. */
  ghost predicate ActsOnOwn(w: P.World, v: P.World, hs: seq<Handler>, h: nat, relay: R.Relay) {
    && h < |hs| && hs[h].Relaying? && |v.conns| == |w.conns|
    && (forall d :: 0 <= d < |w.conns| && d != hs[h].c ==> v.conns[d] == w.conns[d])
    && |w.calls| <= |v.calls| && v.calls[..|w.calls|] == w.calls
    && (forall k :: |w.calls| <= k < |v.calls| ==> !v.calls[k].Activating?)
    && HandlerOk(v, Relaying(hs[h].c, relay))
  }

  lemma {:induction false} OwnStepKeepsGood(w: P.World, v: P.World, hs: seq<Handler>, h: nat, relay: R.Relay)
    requires Good(w, hs) && PoolUnused(v) && ActsOnOwn(w, v, hs, h, relay)
    ensures Good(v, hs[h := Relaying(hs[h].c, relay)])
  {
    var c, after := hs[h].c, hs[h := Relaying(hs[h].c, relay)];
    assert forall k :: 0 <= k < |w.calls| ==> v.calls[k] == v.calls[..|w.calls|][k];
    forall k | 0 <= k < |v.calls| ensures CallOk(v, after, v.calls[k]) {
      if k < |w.calls| {
        assert CallOk(w, hs, w.calls[k]);
      }
    }
    forall g | 0 <= g < |after| ensures HandlerOk(v, after[g]) {
      if g != h {
        assert HandlerOk(w, hs[g]);
      }
    }
  }

  lemma {:induction false} ShutOnlyByCloseWrite(r: R.Relay, b: R.Action)
    requires R.Inv(r) && !b.CloseBackend?
    ensures R.Step(r, b).backend.closed == r.backend.closed
    ensures R.Step(r, b).backend.writeShut == (r.backend.writeShut || HalfCloses(r, b))
  {
    match b
    case Up(d) => R.UpStep(r, d);
    case Down(d) => R.DownStep(r, d);
    case CloseClient =>
  }

  /** The half-close of a connection that is still checked out. */
  lemma {:induction false} HalfCloseIsOwn(cfg: P.Config, w: P.World, hs: seq<Handler>, h: nat, relay: R.Relay)
    requires Good(w, hs) && h < |hs| && hs[h].Relaying? && R.Inv(relay)
    requires !hs[h].relay.backend.closed && !relay.backend.closed && relay.backend.writeShut
    ensures var v := P.Do(cfg, w, P.CloseWrite(hs[h].c));
      PoolUnused(v) && ActsOnOwn(w, v, hs, h, relay)
  {
    assert HandlerOk(w, hs[h]);
  }

  lemma {:induction false} CopyKeepsInv(cfg: P.Config, p: Proxy, h: nat, b: R.Action)
    requires Inv(cfg, p)
    ensures Inv(cfg, Do(cfg, p, Copy(h, b)))
  {
    if h < |p.handlers| && p.handlers[h].Relaying? && !b.CloseBackend? {
      var w, c, relay := Pool(cfg, p), p.handlers[h].c, p.handlers[h].relay;
      var next := R.Step(relay, b);
      assert HandlerOk(w, p.handlers[h]);
      R.StepKeepsInv(relay, b);
      ShutOnlyByCloseWrite(relay, b);
      if HalfCloses(relay, b) {
        P.RunMore(cfg, p.trace, P.CloseWrite(c));
        HalfCloseIsOwn(cfg, w, p.handlers, h, next);
        OwnStepKeepsGood(w, P.Do(cfg, w, P.CloseWrite(c)), p.handlers, h, next);
      } else {
        OwnStepKeepsGood(w, w, p.handlers, h, next);
      }
    }
  }

  /** The Close of a half-closed connection: it will be shut, not pooled. */
  lemma {:induction false} CloseIsOwn(cfg: P.Config, w: P.World, hs: seq<Handler>, h: nat, relay: R.Relay)
    requires Good(w, hs) && h < |hs| && hs[h].Relaying? && R.Inv(relay) && relay.backend.closed
    requires !hs[h].relay.backend.closed && hs[h].relay.backend.writeShut
    requires forall c :: 0 <= c < |w.conns| ==> P.ConnOk(w.conns[c])
    ensures var v := P.Do(cfg, w, P.Close(hs[h].c));
      PoolUnused(v) && ActsOnOwn(w, v, hs, h, relay)
  {
    assert HandlerOk(w, hs[h]);
    assert P.ConnOk(w.conns[hs[h].c]);
  }

  lemma {:induction false} LeaveKeepsInv(cfg: P.Config, p: Proxy, h: nat)
    requires Inv(cfg, p)
    ensures Inv(cfg, Do(cfg, p, Leave(h)))
  {
    var w, q := Pool(cfg, p), Do(cfg, p, Leave(h));
    if q != p {
      var c, next := p.handlers[h].c, R.Step(p.handlers[h].relay, R.CloseBackend);
      assert HandlerOk(w, p.handlers[h]);
      R.StepKeepsInv(p.handlers[h].relay, R.CloseBackend);
      P.RunKeepsInv(cfg, p.trace);
      P.RunMore(cfg, p.trace, P.Close(c));
      CloseIsOwn(cfg, w, p.handlers, h, next);
      OwnStepKeepsGood(w, P.Do(cfg, w, P.Close(c)), p.handlers, h, next);
    }
  }

  // ---------------------------------------------------------------- whole runs

  lemma {:induction false} DoKeepsInv(cfg: P.Config, p: Proxy, a: Action)
    requires Inv(cfg, p)
    ensures Inv(cfg, Do(cfg, p, a))
  {
    match a
    case Accept => AcceptKeepsInv(cfg, p);
    case Inside(k, now, good) => PoolStepKeepsInv(cfg, p, k, now, good);
    case Connected(h) => ConnectedKeepsInv(cfg, p, h);
    case Refused(h) => RefusedKeepsInv(cfg, p, h);
    case Copy(h, b) => CopyKeepsInv(cfg, p, h, b);
    case Leave(h) => LeaveKeepsInv(cfg, p, h);
  }

  lemma {:induction false} RunKeepsInv(cfg: P.Config, actions: seq<Action>)
    ensures Inv(cfg, Run(cfg, actions))
  {
    if actions == [] {
      assert Pool(cfg, START) == P.START;
    } else {
      RunKeepsInv(cfg, actions[..|actions| - 1]);
      DoKeepsInv(cfg, Run(cfg, actions[..|actions| - 1]), actions[|actions| - 1]);
    }
  }

  /** Under L4 traffic alone the pool never pays: the idle channel is always empty, there is never a
      hit, and every Dial either is still on its way to the network or has attempted a new socket. */
  lemma {:induction false} PoolNeverHits(cfg: P.Config, actions: seq<Action>)
    ensures var w := Pool(cfg, Run(cfg, actions));
      && w.idle == [] && w.hits == 0 && w.returned == 0
      && (cfg.pooling ==>
            w.total + Tally(w.calls, P.AboutToDial) + Tally(w.calls, P.Searching) == w.dials)
  {
    RunKeepsInv(cfg, actions);
    P.RunKeepsBooks(cfg, Run(cfg, actions).trace);
  }

  /** A connection belongs to its handler from Dial to Close, in every run: nobody else hands it back,
      closes it or sends a FIN on it, and no other handler or call has it. */
  lemma {:induction false} ConnectionIsExclusive(cfg: P.Config, actions: seq<Action>, h: nat)
    requires var p := Run(cfg, actions); h < |p.handlers| && p.handlers[h].Relaying?
    ensures var p := Run(cfg, actions);
      var w, c, r := Pool(cfg, p), p.handlers[h].c, p.handlers[h].relay;
      && c < |w.conns|
      && (!r.backend.closed ==>
            !w.conns[c].returned && !w.conns[c].closed && (w.conns[c].fin <==> r.backend.writeShut))
      && (r.backend.closed ==> w.conns[c].returned && w.conns[c].fin)
      && (forall g :: 0 <= g < |p.handlers| && g != h && p.handlers[g].Relaying? ==> p.handlers[g].c != c)
      && (forall k :: 0 <= k < |w.calls| && w.calls[k].Activating? ==> w.calls[k].c != c)
  {
    var p := Run(cfg, actions);
    var w := Pool(cfg, p);
    RunKeepsInv(cfg, actions);
    P.RunKeepsInv(cfg, p.trace);
    assert HandlerOk(w, p.handlers[h]);
    assert P.ConnOk(w.conns[p.handlers[h].c]);
    forall k | 0 <= k < |w.calls| && w.calls[k].Activating? ensures w.calls[k].c != p.handlers[h].c {
      assert CallOk(w, p.handlers, w.calls[k]);
    }
  }

  /** So over a pool that many share, every handler's streams fare as those of a relay by itself: the
      backend gets a prefix of what the client sent, its connection's FIN comes only after that copy is
      over, and once it is handed back without an error both streams were whole. */
  lemma {:induction false} EveryRelayIsSafe(cfg: P.Config, actions: seq<Action>, h: nat)
    requires var p := Run(cfg, actions); h < |p.handlers| && p.handlers[h].Relaying?
    ensures var p := Run(cfg, actions);
      var w, c, r := Pool(cfg, p), p.handlers[h].c, p.handlers[h].relay;
      && c < |w.conns|
      && r.backend.outbound <= r.client.inbound && r.client.outbound <= r.backend.inbound
      && (w.conns[c].fin || w.conns[c].returned || w.conns[c].closed ==> r.up.phase.Finished?)
      && (w.conns[c].returned || w.conns[c].closed ==> w.conns[c].fin && r.down.phase.Finished?)
      && (w.conns[c].fin && !r.up.failed ==> r.backend.outbound == r.client.inbound)
      && (w.conns[c].returned && !r.down.failed ==> r.client.outbound == r.backend.inbound)
  {
    ConnectionIsExclusive(cfg, actions, h);
    RunKeepsInv(cfg, actions);
    var p := Run(cfg, actions);
    var r := p.handlers[h].relay;
    assert HandlerOk(Pool(cfg, p), p.handlers[h]);
    assert r.backend.outbound + r.up.buf <= r.client.inbound && r.client.outbound + r.down.buf <= r.backend.inbound;
    if r.up.phase.Finished? && !r.up.failed {
      R.WholeWhenOver(R.Upward(r));
    }
    if r.down.phase.Finished? && !r.down.failed {
      R.WholeWhenOver(R.Downward(r));
    }
  }
}
