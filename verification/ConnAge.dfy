/** The age of a pooled connection over whole runs of the pool: when it was dialled, checked out and
    returned, and what that means for its expiry. */
module ConnAge {
  import opened ConnPool

  // ---------------------------------------------------------------- the events of a connection

  /** The dialer delivers c. */
  predicate Dials(w: World, a: Action, c: nat) {
    Moves(w, a) && w.calls[a.k].Waiting? && a.good && c == |w.conns|
  }

  /** c is handed out: newly dialled, or reused. */
  predicate ChecksOut(w: World, a: Action, c: nat) {
    Dials(w, a, c) || (Moves(w, a) && w.calls[a.k] == Reusing(c) && c < |w.conns|)
  }

  /** put finds c in order, and is about to offer it to the channel. */
  predicate Returns(cfg: Config, w: World, a: Action, c: nat) {
    && Moves(w, a) && w.calls[a.k] == Releasing(c, false) && cfg.pooling
    && c < |w.conns| && !Expired(cfg, w.conns[c], a.now)
  }

  function DialledAt(cfg: Config, actions: seq<Action>, c: nat): int {
    if actions == [] then 0
    else
      var most, a := actions[..|actions| - 1], actions[|actions| - 1];
      if Dials(Run(cfg, most), a, c) then a.now else DialledAt(cfg, most, c)
  }

  function LastCheckout(cfg: Config, actions: seq<Action>, c: nat): int {
    if actions == [] then 0
    else
      var most, a := actions[..|actions| - 1], actions[|actions| - 1];
      if ChecksOut(Run(cfg, most), a, c) then a.now else LastCheckout(cfg, most, c)
  }

  function LastReturn(cfg: Config, actions: seq<Action>, c: nat): int {
    if actions == [] then 0
    else
      var most, a := actions[..|actions| - 1], actions[|actions| - 1];
      if Returns(cfg, Run(cfg, most), a, c) then a.now else LastReturn(cfg, most, c)
  }

  // ---------------------------------------------------------------- what the two time fields hold

  /** What one step may do to the times of connection c. */
  ghost predicate TimesFollow(w: World, v: World, a: Action, c: nat) {
    c < |v.conns| ==>
      && (Dials(w, a, c) ==> v.conns[c].createdAt == a.now)
      && (!Dials(w, a, c) ==> c < |w.conns| && v.conns[c].createdAt == w.conns[c].createdAt)
      && (ChecksOut(w, a, c) ==> v.conns[c].lastUsed == a.now)
      && (!ChecksOut(w, a, c) ==> c < |w.conns| && v.conns[c].lastUsed == w.conns[c].lastUsed)
  }

  lemma {:induction false} GetStepTimes(cfg: Config, w: World, k: nat, now: int, good: bool, c: nat)
    requires k < |w.calls| && !InClose(w.calls[k]) && !InDial(w.calls[k])
    ensures TimesFollow(w, StepGet(cfg, w, k, now, good), Advance(k, now, good), c)
  {
  }

  lemma {:induction false} DoTimes(cfg: Config, w: World, a: Action, c: nat)
    ensures TimesFollow(w, Do(cfg, w, a), a, c)
  {
    if Moves(w, a) && !InClose(w.calls[a.k]) && !InDial(w.calls[a.k]) {
      GetStepTimes(cfg, w, a.k, a.now, a.good, c);
    }
  }

  /** In every interleaving lastUsed is the time of the last checkout, whatever returns came after it,
      and createdAt the time of the dial. */
  lemma {:induction false} TimesAreRecorded(cfg: Config, actions: seq<Action>, c: nat)
    requires c < |Run(cfg, actions).conns|
    ensures Run(cfg, actions).conns[c].lastUsed == LastCheckout(cfg, actions, c)
    ensures Run(cfg, actions).conns[c].createdAt == DialledAt(cfg, actions, c)
  {
    var most, a := actions[..|actions| - 1], actions[|actions| - 1];
    DoTimes(cfg, Run(cfg, most), a, c);
    if !Dials(Run(cfg, most), a, c) {
      TimesAreRecorded(cfg, most, c);
    }
  }

  // ---------------------------------------------------------------- expiry

  /** Too long since the last checkout, or since the dial. */
  ghost predicate TooOld(cfg: Config, actions: seq<Action>, c: nat, now: int) {
    || (cfg.idleTimeout > 0 && now - LastCheckout(cfg, actions, c) > cfg.idleTimeout)
    || (cfg.maxLifetime > 0 && now - DialledAt(cfg, actions, c) > cfg.maxLifetime)
  }

  lemma {:induction false} ExpiredIsTooOld(cfg: Config, actions: seq<Action>, c: nat, now: int)
    requires c < |Run(cfg, actions).conns|
    ensures Expired(cfg, Run(cfg, actions).conns[c], now) <==> TooOld(cfg, actions, c, now)
  {
    TimesAreRecorded(cfg, actions, c);
  }

  lemma {:induction false} HeldExists(cfg: Config, actions: seq<Action>, k: nat)
    requires k < |Run(cfg, actions).calls| && Held(Run(cfg, actions).calls[k]) >= 0
    ensures Held(Run(cfg, actions).calls[k]) < |Run(cfg, actions).conns|
  {
    RunKeepsInv(cfg, actions);
  }

  /** get discards a live connection that it received if and only if it is too old, counted from the
      last checkout, however recently it came back. */
  lemma {:induction false} GetDiscardsIff(cfg: Config, actions: seq<Action>, k: nat, c: nat, now: int)
    requires k < |Run(cfg, actions).calls| && Run(cfg, actions).calls[k] == Checking(c)
    ensures var next := Run(cfg, actions + [Advance(k, now, true)]).calls[k];
      && (next == Discarding(c) <==> TooOld(cfg, actions, c, now))
      && (next == Hitting(c) <==> !TooOld(cfg, actions, c, now))
  {
    HeldExists(cfg, actions, k);
    RunMore(cfg, actions, Advance(k, now, true));
    ExpiredIsTooOld(cfg, actions, c, now);
  }

  /** put refuses a connection if and only if it is too old by the same count, so one that was in use
      for longer than IdleTimeout is never pooled. */
  lemma {:induction false} PutRefusesIff(cfg: Config, actions: seq<Action>, k: nat, c: nat, now: int)
    requires cfg.pooling && k < |Run(cfg, actions).calls| && Run(cfg, actions).calls[k] == Releasing(c, false)
    ensures var next := Run(cfg, actions + [Advance(k, now, true)]).calls[k];
      && (next == Rejecting(c) <==> TooOld(cfg, actions, c, now))
      && (next == Offering(c) <==> !TooOld(cfg, actions, c, now))
  {
    HeldExists(cfg, actions, k);
    RunMore(cfg, actions, Advance(k, now, true));
    ExpiredIsTooOld(cfg, actions, c, now);
  }

  /** put sends a connection that is not too old to the channel if and only if that has room. */
  lemma {:induction false} OfferPoolsIff(cfg: Config, actions: seq<Action>, k: nat, c: nat, now: int)
    requires k < |Run(cfg, actions).calls| && Run(cfg, actions).calls[k] == Offering(c)
    ensures var w, v := Run(cfg, actions), Run(cfg, actions + [Advance(k, now, true)]);
      && (v.calls[k] == Sent(c) <==> |w.idle| < cfg.maxIdle)
      && (v.calls[k] == Rejecting(c) <==> |w.idle| >= cfg.maxIdle)
      && v.idle == if |w.idle| < cfg.maxIdle then w.idle + [c] else w.idle
  {
    RunMore(cfg, actions, Advance(k, now, true));
  }

  // ---------------------------------------------------------------- against the age since the return

  /** The clock never runs backwards. */
  ghost predicate Timed(actions: seq<Action>) {
    forall i, j :: 0 <= i < j < |actions| && actions[i].Advance? && actions[j].Advance? ==>
      actions[i].now <= actions[j].now
  }

  /** The calls through which c passes between its return and its next checkout. */
  predicate IsBackIn(call: Call, c: nat) {
    call == Offering(c) || call == Checking(c) || call == Hitting(c) || call == Reusing(c)
  }

  ghost predicate IsBack(w: World, c: nat) {
    c in w.idle || exists k :: 0 <= k < |w.calls| && IsBackIn(w.calls[k], c)
  }

  /** A connection that has just been checked out is not back. */
  lemma {:induction false} CheckedOutIsNotBack(cfg: Config, w: World, a: Action, c: nat)
    requires Inv(cfg, w) && ChecksOut(w, a, c)
    ensures !IsBack(Do(cfg, w, a), c)
  {
    var v := Do(cfg, w, a);
    assert Held(w.calls[a.k]) == c || c == |w.conns|;
    forall m | 0 <= m < |v.calls| ensures !IsBackIn(v.calls[m], c) {
      if m != a.k {
        assert Held(w.calls[m]) != c;
      }
    }
  }

  /** A connection comes back only by being returned. */
  lemma {:induction false} BackByReturn(cfg: Config, w: World, a: Action, c: nat)
    requires Inv(cfg, w) && IsBack(Do(cfg, w, a), c) && !Returns(cfg, w, a, c)
    ensures IsBack(w, c)
  {
    var v := Do(cfg, w, a);
    if Moves(w, a) {
      BackByReturnStep(cfg, w, v, a, c);
    } else {
      if c !in w.idle {
        var m :| 0 <= m < |v.calls| && IsBackIn(v.calls[m], c);
        assert m < |w.calls| && v.calls[m] == w.calls[m];
      }
    }
  }

  /** What one step of call k can make of c: only a step of a call that has it back, or a receive. */
  lemma {:induction false} StepBringsBack(cfg: Config, w: World, v: World, a: Action, c: nat)
    requires Moves(w, a) && v == StepCall(cfg, w, a.k, a.now, a.good) && !Returns(cfg, w, a, c)
    requires Held(w.calls[a.k]) >= 0 ==> Held(w.calls[a.k]) < |w.conns|
    ensures |v.calls| == |w.calls| && v.calls == w.calls[a.k := v.calls[a.k]]
    ensures IsBackIn(v.calls[a.k], c) ==> IsBackIn(w.calls[a.k], c) || c in w.idle
    ensures c in v.idle ==> c in w.idle || IsBackIn(w.calls[a.k], c)
  {
  }

  lemma {:induction false} BackByReturnStep(cfg: Config, w: World, v: World, a: Action, c: nat)
    requires Moves(w, a) && v == Do(cfg, w, a) && IsBack(v, c) && !Returns(cfg, w, a, c)
    requires Held(w.calls[a.k]) >= 0 ==> Held(w.calls[a.k]) < |w.conns|
    ensures IsBack(w, c)
  {
    StepBringsBack(cfg, w, v, a, c);
    if c !in v.idle {
      var m :| 0 <= m < |v.calls| && IsBackIn(v.calls[m], c);
      assert m == a.k || v.calls[m] == w.calls[m];
    }
  }

  ghost predicate UpTo(actions: seq<Action>, now: int) {
    forall i :: 0 <= i < |actions| && actions[i].Advance? ==> actions[i].now <= now
  }

  lemma {:induction false} CheckoutUpTo(cfg: Config, actions: seq<Action>, c: nat, now: int)
    requires c < |Run(cfg, actions).conns| && UpTo(actions, now)
    ensures LastCheckout(cfg, actions, c) <= now
  {
    var most, a := actions[..|actions| - 1], actions[|actions| - 1];
    DoTimes(cfg, Run(cfg, most), a, c);
    if !ChecksOut(Run(cfg, most), a, c) {
      CheckoutUpTo(cfg, most, c, now);
    }
  }

  /** While a connection is back its last return is not before its last checkout. */
  lemma {:induction false} BackAfterCheckout(cfg: Config, actions: seq<Action>, c: nat)
    requires Timed(actions) && IsBack(Run(cfg, actions), c)
    ensures LastCheckout(cfg, actions, c) <= LastReturn(cfg, actions, c)
  {
    var most, a := actions[..|actions| - 1], actions[|actions| - 1];
    var w := Run(cfg, most);
    RunKeepsInv(cfg, most);
    if ChecksOut(w, a, c) {
      CheckedOutIsNotBack(cfg, w, a, c);
      assert false;
    }
    if Returns(cfg, w, a, c) {
      CheckoutUpTo(cfg, most, c, a.now);
    } else {
      BackByReturn(cfg, w, a, c);
      BackAfterCheckout(cfg, most, c);
    }
  }

  /** Against "close if idle for longer", the age since the return: within its lifetime, a live connection
      that was idle for longer is discarded, and one that was not is discarded all the same exactly when
      the time since its last checkout alone is longer. */
  lemma {:induction false} DiscardsEarlyIff(cfg: Config, actions: seq<Action>, k: nat, c: nat, now: int)
    requires Timed(actions) && k < |Run(cfg, actions).calls| && Run(cfg, actions).calls[k] == Checking(c)
    requires cfg.idleTimeout > 0 && (cfg.maxLifetime > 0 ==> now - DialledAt(cfg, actions, c) <= cfg.maxLifetime)
    ensures var discards := Run(cfg, actions + [Advance(k, now, true)]).calls[k] == Discarding(c);
      var idleFor := now - LastReturn(cfg, actions, c);
      && (idleFor > cfg.idleTimeout ==> discards)
      && (discards && idleFor <= cfg.idleTimeout <==>
            LastCheckout(cfg, actions, c) + cfg.idleTimeout < now <= LastReturn(cfg, actions, c) + cfg.idleTimeout)
  {
    GetDiscardsIff(cfg, actions, k, c, now);
    assert IsBackIn(Run(cfg, actions).calls[k], c);
    BackAfterCheckout(cfg, actions, c);
  }
}
