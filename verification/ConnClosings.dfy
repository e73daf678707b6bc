/** How often the socket of a pooled connection is closed over whole runs of the pool, and which steps
    move the number of active connections. */
module ConnClosings {
  import opened ConnPool

  /** A step that closes the socket of c. */
  predicate Shuts(cfg: Config, w: World, a: Action, c: nat) {
    && Moves(w, a) && c < |w.conns|
    && match w.calls[a.k]
       case Releasing(d, half) => d == c && (!cfg.pooling || half)
       case Shutting(d) => d == c
       case Reshutting(d) => d == c
       case Evicting(d) => d == c
       case _ => false
  }

  /** The step by which a put that rejects c counts it. */
  predicate Rejects(w: World, a: Action, c: nat) {
    Moves(w, a) && c < |w.conns| && w.calls[a.k] == Rejecting(c)
  }

  function Closings(cfg: Config, actions: seq<Action>, c: nat): nat {
    if actions == [] then 0
    else
      var most, a := actions[..|actions| - 1], actions[|actions| - 1];
      Closings(cfg, most, c) + (if Shuts(cfg, Run(cfg, most), a, c) then 1 else 0)
  }

  function Rejections(cfg: Config, actions: seq<Action>, c: nat): nat {
    if actions == [] then 0
    else
      var most, a := actions[..|actions| - 1], actions[|actions| - 1];
      Rejections(cfg, most, c) + (if Rejects(Run(cfg, most), a, c) then 1 else 0)
  }

  /** How often a connection held by this call was closed and rejected so far. */
  ghost predicate HolderTracks(call: Call, n: nat, m: nat) {
    match call
    case Shutting(_) => n == 0 && m == 1
    case Reshutting(_) => n == 1 && m == 1
    case _ => n == 0 && m == 0
  }

  ghost predicate FreeTracks(n: nat, m: nat) {
    (m == 0 && n <= 1) || (m == 1 && n == 2)
  }

  ghost predicate Tracks(w: World, c: nat, n: nat, m: nat) {
    && c < |w.conns| && (w.conns[c].closed <==> n > 0)
    && (forall k :: 0 <= k < |w.calls| && Held(w.calls[k]) == c ==> HolderTracks(w.calls[k], n, m))
    && (!IsHeld(w, c) ==> FreeTracks(n, m))
  }

  /** A step of call k that holds c before and after. */
  lemma {:induction false} KeepsHold(w: World, v: World, k: nat, c: nat, n: nat, m: nat)
    requires CallsOk(w) && k < |w.calls| == |v.calls| && Held(w.calls[k]) == c == Held(v.calls[k]) && c < |v.conns|
    requires forall i :: 0 <= i < |w.calls| && i != k ==> v.calls[i] == w.calls[i]
    requires (v.conns[c].closed <==> n > 0) && HolderTracks(v.calls[k], n, m)
    ensures Tracks(v, c, n, m)
  {
    assert IsHeld(v, c);
  }

  /** A step that has nothing to do with c. */
  lemma {:induction false} StepsAside(w: World, v: World, k: nat, c: nat, n: nat, m: nat)
    requires Tracks(w, c, n, m) && |w.calls| <= |v.calls| && c < |v.conns| && v.conns[c].closed == w.conns[c].closed
    requires forall i :: 0 <= i < |w.calls| && i != k ==> v.calls[i] == w.calls[i]
    requires forall i :: |w.calls| <= i < |v.calls| ==> Held(v.calls[i]) != c
    requires k < |w.calls| ==> Held(w.calls[k]) != c && Held(v.calls[k]) != c
    ensures Tracks(v, c, n, m)
  {
    HeldElsewhere(w, v, k);
  }

  /** get receives c from the channel, or Close marks it: nobody held it, and it is open. */
  lemma {:induction false} TakesHold(w: World, v: World, k: nat, c: nat, n: nat, m: nat)
    requires Tracks(w, c, n, m) && !IsHeld(w, c) && !w.conns[c].closed && c < |v.conns| && !v.conns[c].closed
    requires |w.calls| <= |v.calls| && k < |v.calls| && Held(v.calls[k]) == c
    requires !v.calls[k].Shutting? && !v.calls[k].Reshutting?
    requires forall i :: 0 <= i < |v.calls| && i != k ==> i < |w.calls| && v.calls[i] == w.calls[i]
    ensures Tracks(v, c, n, m)
  {
    assert IsHeld(v, c);
    assert forall i :: 0 <= i < |w.calls| ==> Held(w.calls[i]) != c;
  }

  function More(n: nat, yes: bool): nat { if yes then n + 1 else n }

  /** A step of Close or put by a call that holds c. */
  lemma {:induction false} HolderCloses(cfg: Config, w: World, k: nat, now: int, good: bool, c: nat, n: nat, m: nat)
    requires Inv(cfg, w) && Tracks(w, c, n, m) && k < |w.calls| && InClose(w.calls[k]) && Held(w.calls[k]) == c
    ensures var a := Advance(k, now, good);
      Tracks(StepClose(cfg, w, k, now), c, More(n, Shuts(cfg, w, a, c)), More(m, Rejects(w, a, c)))
  {
    var a, v := Advance(k, now, good), StepClose(cfg, w, k, now);
    var shut, refused := More(n, Shuts(cfg, w, a, c)), More(m, Rejects(w, a, c));
    assert HolderTracks(w.calls[k], n, m);
    if Held(v.calls[k]) == c {
      KeepsHold(w, v, k, c, shut, refused);
    }
  }

  /** A step of get by a call that holds c. */
  lemma {:induction false} HolderGets(cfg: Config, w: World, k: nat, now: int, good: bool, c: nat, n: nat, m: nat)
    requires Inv(cfg, w) && Tracks(w, c, n, m) && k < |w.calls| && Held(w.calls[k]) == c
    requires !InClose(w.calls[k]) && !InDial(w.calls[k])
    ensures var a := Advance(k, now, good);
      Tracks(StepGet(cfg, w, k, now, good), c, More(n, Shuts(cfg, w, a, c)), More(m, Rejects(w, a, c)))
  {
    var a, v := Advance(k, now, good), StepGet(cfg, w, k, now, good);
    var shut, refused := More(n, Shuts(cfg, w, a, c)), More(m, Rejects(w, a, c));
    assert HolderTracks(w.calls[k], n, m);
    if Held(v.calls[k]) == c {
      KeepsHold(w, v, k, c, shut, refused);
    }
  }

  /** A step of a call that does not hold c. */
  lemma {:induction false} OthersStep(cfg: Config, w: World, k: nat, now: int, good: bool, c: nat, n: nat, m: nat)
    requires Inv(cfg, w) && Tracks(w, c, n, m) && k < |w.calls| && Held(w.calls[k]) != c
    ensures Tracks(StepCall(cfg, w, k, now, good), c, n, m)
  {
    var v := StepCall(cfg, w, k, now, good);
    if w.calls[k].Getting? && w.idle != [] && w.idle[0] == c {
      assert forall i :: 0 <= i < |w.calls| ==> Held(w.calls[i]) != w.idle[0];
      TakesHold(w, v, k, c, n, m);
    } else {
      OthersAreAside(cfg, w, k, now, good, c);
      StepsAside(w, v, k, c, n, m);
    }
  }

  /** The step to v leaves c alone. */
  ghost predicate Aside(w: World, v: World, k: nat, c: nat) {
    && k < |w.calls| == |v.calls| && v.calls == w.calls[k := v.calls[k]] && Held(v.calls[k]) != c
    && c < |w.conns| && c < |v.conns| && v.conns[c].closed == w.conns[c].closed
  }

  lemma {:induction false} OthersAreAside(cfg: Config, w: World, k: nat, now: int, good: bool, c: nat)
    requires k < |w.calls| && c < |w.conns| && Held(w.calls[k]) != c
    requires !(w.calls[k].Getting? && w.idle != [] && w.idle[0] == c)
    ensures Aside(w, StepCall(cfg, w, k, now, good), k, c)
  {
  }

  lemma {:induction false} CloseTracks(cfg: Config, w: World, d: nat, c: nat, n: nat, m: nat)
    requires Inv(cfg, w) && Tracks(w, c, n, m)
    ensures Tracks(Do(cfg, w, Close(d)), c, n, m)
  {
    var v := Do(cfg, w, Close(d));
    if d == c && !w.conns[c].returned {
      assert ConnOk(w.conns[c]);
      assert forall i :: 0 <= i < |w.calls| && Held(w.calls[i]) >= 0 ==> w.conns[Held(w.calls[i])].returned;
      TakesHold(w, v, |w.calls|, c, n, m);
    } else {
      StepsAside(w, v, |w.calls|, c, n, m);
    }
  }

  lemma {:induction false} DoTracks(cfg: Config, w: World, a: Action, c: nat, n: nat, m: nat)
    requires Inv(cfg, w) && Tracks(w, c, n, m)
    ensures Tracks(Do(cfg, w, a), c, More(n, Shuts(cfg, w, a, c)), More(m, Rejects(w, a, c)))
  {
    match a
    case Close(d) => CloseTracks(cfg, w, d, c, n, m);
    case CloseWrite(d) => StepsAside(w, Do(cfg, w, a), |w.calls|, c, n, m);
    case Dial => StepsAside(w, Do(cfg, w, a), |w.calls|, c, n, m);
    case Advance(k, now, good) =>
      if k < |w.calls| {
        if Held(w.calls[k]) != c {
          OthersStep(cfg, w, k, now, good, c, n, m);
        } else if InClose(w.calls[k]) {
          HolderCloses(cfg, w, k, now, good, c, n, m);
        } else {
          HolderGets(cfg, w, k, now, good, c, n, m);
        }
      }
  }

  /** A connection that does not exist yet has no history, and a new one is open and with nobody. */
  lemma {:induction false} NewTracks(cfg: Config, w: World, a: Action, c: nat)
    requires Inv(cfg, w) && |w.conns| <= c < |Do(cfg, w, a).conns|
    ensures Tracks(Do(cfg, w, a), c, 0, 0)
  {
    var v := Do(cfg, w, a);
    assert a.Advance? && a.k < |w.calls| && w.calls[a.k].Waiting? && c == |w.conns|;
    forall i | 0 <= i < |v.calls| ensures Held(v.calls[i]) != c {
      assert i == a.k || v.calls[i] == w.calls[i];
    }
  }

  lemma {:induction false} NoHistoryYet(cfg: Config, actions: seq<Action>, c: nat)
    requires c >= |Run(cfg, actions).conns|
    ensures Closings(cfg, actions, c) == 0 && Rejections(cfg, actions, c) == 0
  {
    if actions == [] {
    } else {
      var most, a := actions[..|actions| - 1], actions[|actions| - 1];
      NoHistoryYet(cfg, most, c);
    }
  }

  lemma {:induction false} RunTracks(cfg: Config, actions: seq<Action>, c: nat)
    requires c < |Run(cfg, actions).conns|
    ensures Tracks(Run(cfg, actions), c, Closings(cfg, actions, c), Rejections(cfg, actions, c))
  {
    var most, a := actions[..|actions| - 1], actions[|actions| - 1];
    var w := Run(cfg, most);
    RunKeepsInv(cfg, most);
    if c < |w.conns| {
      RunTracks(cfg, most, c);
      DoTracks(cfg, w, a, c, Closings(cfg, most, c), Rejections(cfg, most, c));
    } else {
      NoHistoryYet(cfg, most, c);
      NewTracks(cfg, w, a, c);
    }
  }

  /** In every interleaving a socket is closed at most twice, a put rejects a connection at most once, and
      once nobody holds the connection any more its socket was closed twice exactly when one did. */
  lemma {:induction false} ClosedAtMostTwice(cfg: Config, actions: seq<Action>, c: nat)
    requires c < |Run(cfg, actions).conns|
    ensures var n, m := Closings(cfg, actions, c), Rejections(cfg, actions, c);
      && n <= 2 && m <= 1 && (Run(cfg, actions).conns[c].closed <==> n > 0)
      && (n == 2 <==> m == 1 && !IsHeld(Run(cfg, actions), c))
  {
    RunTracks(cfg, actions, c);
    var w := Run(cfg, actions);
    if IsHeld(w, c) {
      var k :| 0 <= k < |w.calls| && Held(w.calls[k]) == c;
      assert HolderTracks(w.calls[k], Closings(cfg, actions, c), Rejections(cfg, actions, c));
    }
  }

  // ---------------------------------------------------------------- when activeConns moves

  /** Only a connection that exists is counted as active: no step of a Dial moves activeConns before the
      last one, which has the connection, so a Dial that fails never does. */
  lemma {:induction false} ActiveMovesIff(cfg: Config, w: World, a: Action)
    ensures Do(cfg, w, a).active != w.active <==>
            Moves(w, a) && (w.calls[a.k].Closing? || w.calls[a.k].Activating?)
    ensures Moves(w, a) && w.calls[a.k].Closing? ==> Do(cfg, w, a).active == w.active - 1
    ensures Moves(w, a) && w.calls[a.k].Activating? ==> Do(cfg, w, a).active == w.active + 1
  {
  }
}
