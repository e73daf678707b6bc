/** The byte relay of internal/proxy/tcp.go: one handler, two sockets, two copy directions, half-close.

    Each direction copies what its source sends, in order and in chunks, until the source ends or an
    error stops it; then it half-closes its destination. The sockets close when both have finished.
    Half-close is that of section 3.6.1 of RFC 9293. */
module Relay {

  const CHUNK := 32 * 1024

  datatype Phase = Copying | Ended | Finished

  datatype DirAction =
    | PeerSend(data: seq<bv8>)
    | PeerFin
    | Read(n: nat)
    | Write
    | ReadEnds
    | ReadFails
    | WriteFails(n: nat)   // the peer took n bytes of the chunk
    | CloseWrite

  // ---------------------------------------------------------------- one direction by itself

  /** What a direction would be if nothing else existed. sent and srcFin are what the source peer has
      put on the wire; taken counts the bytes read from it; buf is the chunk being written; delivered
      and dstFin are what the destination receives. */
  datatype Direction = Direction(sent: seq<bv8>, srcFin: bool, taken: nat, buf: seq<bv8>,
                                 delivered: seq<bv8>, dstFin: bool, phase: Phase, failed: bool)

  const FRESH := Direction([], false, 0, [], [], false, Copying, false)

  function StepDir(d: Direction, a: DirAction): Direction {
    match a
    case PeerSend(data) => if d.srcFin then d else d.(sent := d.sent + data)
    case PeerFin => d.(srcFin := true)
    case Read(n) =>
      if d.phase.Copying? && d.buf == [] && n <= CHUNK && d.taken + n <= |d.sent|
      then d.(buf := d.sent[d.taken..d.taken + n], taken := d.taken + n)
      else d
    case Write =>
      if d.phase.Copying? then d.(delivered := d.delivered + d.buf, buf := []) else d
    case ReadEnds =>
      if d.phase.Copying? && d.buf == [] && d.srcFin && d.taken == |d.sent| then d.(phase := Ended) else d
    case ReadFails =>
      if d.phase.Copying? && d.buf == [] then d.(phase := Ended, failed := true) else d
    case WriteFails(n) =>
      if d.phase.Copying? && n <= |d.buf|
      then d.(delivered := d.delivered + d.buf[..n], buf := [], phase := Ended, failed := true)
      else d
    case CloseWrite =>
      if d.phase.Ended? then d.(phase := Finished, dstFin := true) else d
  }

  function RunDir(actions: seq<DirAction>): Direction {
    if actions == [] then FRESH else StepDir(RunDir(actions[..|actions| - 1]), actions[|actions| - 1])
  }

  ghost predicate DirInv(d: Direction) {
    && d.delivered + d.buf <= d.sent
    && d.taken <= |d.sent|
    && (d.phase.Copying? ==> !d.failed)
    && (!d.failed ==> |d.delivered| + |d.buf| == d.taken)
    && (!d.phase.Copying? ==> d.buf == [])
    && (!d.phase.Copying? && !d.failed ==> d.srcFin && d.taken == |d.sent|)
    && (d.dstFin <==> d.phase.Finished?)
  }

  lemma {:induction false} ReadKeepsInv(d: Direction, n: nat)
    requires DirInv(d)
    ensures DirInv(StepDir(d, Read(n)))
  {
    var e := StepDir(d, Read(n));
    if e != d {
      assert d.delivered + [] == d.delivered;
      assert e.delivered + e.buf == d.sent[..d.taken + n];
    }
  }

  lemma {:induction false} WriteKeepsInv(d: Direction)
    requires DirInv(d)
    ensures DirInv(StepDir(d, Write))
  {
    var e := StepDir(d, Write);
    assert e.delivered + [] == e.delivered;
  }

  lemma {:induction false} WriteFailsKeepsInv(d: Direction, n: nat)
    requires DirInv(d)
    ensures DirInv(StepDir(d, WriteFails(n)))
  {
    var e := StepDir(d, WriteFails(n));
    if e != d {
      assert (d.delivered + d.buf)[..|d.delivered| + n] == d.delivered + d.buf[..n];
      assert e.delivered + [] == e.delivered;
    }
  }

  lemma {:induction false} StepDirKeepsInv(d: Direction, a: DirAction)
    requires DirInv(d)
    ensures DirInv(StepDir(d, a))
  {
    match a
    case Read(n) => ReadKeepsInv(d, n);
    case Write => WriteKeepsInv(d);
    case WriteFails(n) => WriteFailsKeepsInv(d, n);
    case _ =>
  }

  /** Without an error, a direction that is over has delivered everything. */
  lemma {:induction false} WholeWhenOver(d: Direction)
    requires DirInv(d) && !d.phase.Copying? && !d.failed
    ensures d.delivered == d.sent && d.srcFin
  {
    assert d.delivered + [] == d.delivered;
  }

  // ---------------------------------------------------------------- the sockets both directions share

  /** The proxy's end of a connection: what its peer sent (inbound, peerFin) and how much of it was
      read, what was sent to the peer (outbound) and whether that half is shut, and whether the
      proxy has closed it. */
  datatype Socket = Socket(inbound: seq<bv8>, peerFin: bool, taken: nat,
                           outbound: seq<bv8>, writeShut: bool, closed: bool)

  /** A copy in progress; cut records that it ran into a socket that the proxy itself had closed or shut. */
  datatype Copy = Copy(buf: seq<bv8>, phase: Phase, failed: bool, cut: bool)

  datatype Relay = Relay(client: Socket, backend: Socket, up: Copy, down: Copy)

  const SOCKET := Socket([], false, 0, [], false, false)
  const START := Relay(SOCKET, SOCKET, Copy([], Copying, false, false), Copy([], Copying, false, false))

  datatype Moved = Moved(src: Socket, dst: Socket, copy: Copy)

  /** Reads fail on a closed socket, writes on one that is closed or shut for writing. */
  predicate Blocked(src: Socket, dst: Socket, a: DirAction) {
    match a
    case Read(_) => src.closed
    case ReadEnds => src.closed
    case ReadFails => src.closed
    case Write => dst.closed || dst.writeShut
    case WriteFails(_) => dst.closed || dst.writeShut
    case _ => false
  }

  function StepCopy(src: Socket, dst: Socket, c: Copy, a: DirAction): Moved {
    if c.phase.Copying? && Blocked(src, dst, a) then Moved(src, dst, c.(buf := [], phase := Ended, cut := true))
    else
      match a
      case PeerSend(data) => Moved(if src.peerFin then src else src.(inbound := src.inbound + data), dst, c)
      case PeerFin => Moved(src.(peerFin := true), dst, c)
      case Read(n) =>
        if c.phase.Copying? && c.buf == [] && n <= CHUNK && src.taken + n <= |src.inbound|
        then Moved(src.(taken := src.taken + n), dst, c.(buf := src.inbound[src.taken..src.taken + n]))
        else Moved(src, dst, c)
      case Write =>
        if c.phase.Copying? then Moved(src, dst.(outbound := dst.outbound + c.buf), c.(buf := []))
        else Moved(src, dst, c)
      case ReadEnds =>
        if c.phase.Copying? && c.buf == [] && src.peerFin && src.taken == |src.inbound|
        then Moved(src, dst, c.(phase := Ended)) else Moved(src, dst, c)
      case ReadFails =>
        if c.phase.Copying? && c.buf == [] then Moved(src, dst, c.(phase := Ended, failed := true))
        else Moved(src, dst, c)
      case WriteFails(n) =>
        if c.phase.Copying? && n <= |c.buf|
        then Moved(src, dst.(outbound := dst.outbound + c.buf[..n]), c.(buf := [], phase := Ended, failed := true))
        else Moved(src, dst, c)
      case CloseWrite =>
        if c.phase.Ended? then Moved(src, if dst.closed then dst else dst.(writeShut := true), c.(phase := Finished))
        else Moved(src, dst, c)
  }

  /** Had the proxy closed or shut a socket under a copy, its next read or write would end it with
      nothing delivered. */
  lemma {:induction false} ShutSocketCuts(src: Socket, dst: Socket, c: Copy, n: nat)
    requires c.phase.Copying?
    ensures src.closed ==> StepCopy(src, dst, c, Read(n)).copy.cut && StepCopy(src, dst, c, ReadEnds).copy.cut
    ensures dst.closed || dst.writeShut ==>
              StepCopy(src, dst, c, Write).copy.cut && StepCopy(src, dst, c, Write).dst == dst
  {
  }

  /** Up is client to backend, Down is backend to client. When both copies are over the handler
      returns, and its deferred calls close the backend connection first and the client's after it. */
  datatype Action = Up(a: DirAction) | Down(a: DirAction) | CloseBackend | CloseClient

  function Step(r: Relay, a: Action): Relay {
    match a
    case Up(d) => var m := StepCopy(r.client, r.backend, r.up, d); Relay(m.src, m.dst, m.copy, r.down)
    case Down(d) => var m := StepCopy(r.backend, r.client, r.down, d); Relay(m.dst, m.src, r.up, m.copy)
    case CloseBackend =>
      if r.up.phase.Finished? && r.down.phase.Finished? then r.(backend := r.backend.(closed := true)) else r
    case CloseClient =>
      if r.backend.closed then r.(client := r.client.(closed := true)) else r
  }

  function Run(actions: seq<Action>): Relay {
    if actions == [] then START else Step(Run(actions[..|actions| - 1]), actions[|actions| - 1])
  }

  // ---------------------------------------------------------------- each direction as if by itself

  function View(src: Socket, dst: Socket, c: Copy): Direction {
    Direction(src.inbound, src.peerFin, src.taken, c.buf, dst.outbound, dst.writeShut, c.phase, c.failed)
  }

  function Upward(r: Relay): Direction { View(r.client, r.backend, r.up) }

  function Downward(r: Relay): Direction { View(r.backend, r.client, r.down) }

  ghost predicate Inv(r: Relay) {
    && DirInv(Upward(r)) && DirInv(Downward(r))
    && !r.up.cut && !r.down.cut
    && (r.client.closed ==> r.backend.closed)
    && (r.backend.closed ==> r.up.phase.Finished? && r.down.phase.Finished?)
  }

  /** While a direction copies, both sockets are open and the half it writes to is not shut. */
  ghost predicate Free(src: Socket, dst: Socket, c: Copy) {
    !c.cut && (c.phase.Copying? ==> !src.closed && !dst.closed && !dst.writeShut)
  }

  /** The step of a direction by itself, which touches neither the other direction's halves of the
      sockets nor the closed flags. */
  ghost predicate MovesAlone(src: Socket, dst: Socket, c: Copy, a: DirAction) {
    var m := StepCopy(src, dst, c, a);
    && View(m.src, m.dst, m.copy) == StepDir(View(src, dst, c), a)
    && !m.copy.cut
    && m.src == src.(inbound := m.src.inbound, peerFin := m.src.peerFin, taken := m.src.taken)
    && m.dst == dst.(outbound := m.dst.outbound, writeShut := m.dst.writeShut)
  }

  lemma ReadMovesAlone(src: Socket, dst: Socket, c: Copy, a: DirAction)
    requires Free(src, dst, c) && (a.PeerSend? || a.PeerFin? || a.Read? || a.ReadEnds? || a.ReadFails?)
    ensures MovesAlone(src, dst, c, a)
  {
  }

  lemma WriteMovesAlone(src: Socket, dst: Socket, c: Copy, a: DirAction)
    requires Free(src, dst, c) && (dst.closed ==> c.phase.Finished?) && (a.Write? || a.WriteFails? || a.CloseWrite?)
    ensures MovesAlone(src, dst, c, a)
  {
  }

  /** Where nothing is in the way, every step is one of the direction by itself. */
  lemma {:induction false} StepCopyIsStepDir(src: Socket, dst: Socket, c: Copy, a: DirAction)
    requires Free(src, dst, c) && (dst.closed ==> c.phase.Finished?)
    ensures MovesAlone(src, dst, c, a)
  {
    if a.Write? || a.WriteFails? || a.CloseWrite? {
      WriteMovesAlone(src, dst, c, a);
    } else {
      ReadMovesAlone(src, dst, c, a);
    }
  }

  lemma {:induction false} UpStep(r: Relay, a: DirAction)
    requires Inv(r)
    ensures var s := Step(r, Up(a));
      && Upward(s) == StepDir(Upward(r), a) && Downward(s) == Downward(r) && !s.up.cut
      && s.client.closed == r.client.closed && s.backend.closed == r.backend.closed && s.down == r.down
  {
    StepCopyIsStepDir(r.client, r.backend, r.up, a);
  }

  lemma {:induction false} DownStep(r: Relay, a: DirAction)
    requires Inv(r)
    ensures var s := Step(r, Down(a));
      && Downward(s) == StepDir(Downward(r), a) && Upward(s) == Upward(r) && !s.down.cut
      && s.client.closed == r.client.closed && s.backend.closed == r.backend.closed && s.up == r.up
  {
    StepCopyIsStepDir(r.backend, r.client, r.down, a);
  }

  lemma {:induction false} StepKeepsInv(r: Relay, a: Action)
    requires Inv(r)
    ensures Inv(Step(r, a))
  {
    match a
    case Up(d) =>
      UpStep(r, d);
      StepDirKeepsInv(Upward(r), d);
    case Down(d) =>
      DownStep(r, d);
      StepDirKeepsInv(Downward(r), d);
    case CloseBackend =>
    case CloseClient =>
  }

  lemma {:induction false} RunKeepsInv(actions: seq<Action>)
    ensures Inv(Run(actions))
  {
    if actions == [] {
    } else {
      RunKeepsInv(actions[..|actions| - 1]);
      StepKeepsInv(Run(actions[..|actions| - 1]), actions[|actions| - 1]);
    }
  }

  // ---------------------------------------------------------------- safety

  /** No step of one direction ever gets in the way of the other: in every run neither copy has been
      cut off, and while one copies both sockets are open and the half it writes to is not shut. */
  lemma {:induction false} NeverInTheWay(actions: seq<Action>)
    ensures var r := Run(actions);
      Free(r.client, r.backend, r.up) && Free(r.backend, r.client, r.down)
  {
    RunKeepsInv(actions);
  }

  /** In every run: what is delivered is a prefix of what was sent; a FIN is out only once that
      direction's copy is over; and a socket is closed only once both FINs are out. */
  lemma {:induction false} RelayIsSafe(actions: seq<Action>)
    ensures var r := Run(actions);
      && r.backend.outbound <= r.client.inbound && r.client.outbound <= r.backend.inbound
      && (r.backend.writeShut ==> !r.up.phase.Copying?) && (r.client.writeShut ==> !r.down.phase.Copying?)
      && (r.client.closed || r.backend.closed ==> r.backend.writeShut && r.client.writeShut)
  {
    RunKeepsInv(actions);
  }

  /** A FIN sent in r is still sent in s, with nothing delivered in between. */
  ghost predicate FinKept(r: Relay, s: Relay) {
    && (r.backend.writeShut ==> s.backend.writeShut && s.backend.outbound == r.backend.outbound)
    && (r.client.writeShut ==> s.client.writeShut && s.client.outbound == r.client.outbound)
  }

  lemma {:induction false} StepKeepsFin(r: Relay, a: Action)
    requires Inv(r)
    ensures FinKept(r, Step(r, a))
  {
    match a
    case Up(d) =>
      UpStep(r, d);
    case Down(d) =>
      DownStep(r, d);
    case CloseBackend =>
    case CloseClient =>
  }

  lemma {:induction false} RunSnoc(actions: seq<Action>, a: Action)
    ensures Run(actions + [a]) == Step(Run(actions), a)
  {
    assert (actions + [a])[..|actions|] == actions;
  }

  /** Nothing is delivered after the FIN, however the run goes on. */
  lemma {:induction false} FinIsFinal(before: seq<Action>, more: seq<Action>)
    ensures FinKept(Run(before), Run(before + more))
  {
    if more == [] {
      assert before + more == before;
    } else {
      var most, last := before + more[..|more| - 1], more[|more| - 1];
      assert before + more == most + [last];
      FinIsFinal(before, more[..|more| - 1]);
      RunKeepsInv(most);
      StepKeepsFin(Run(most), last);
      RunSnoc(most, last);
    }
  }

  /** When the handler has closed a socket and neither copy had an error, both streams arrived whole. */
  lemma {:induction false} ErrorFreeRunDeliversAll(actions: seq<Action>)
    requires var r := Run(actions); (r.backend.closed || r.client.closed) && !r.up.failed && !r.down.failed
    ensures var r := Run(actions);
      && r.backend.outbound == r.client.inbound && r.client.peerFin && r.backend.writeShut
      && r.client.outbound == r.backend.inbound && r.backend.peerFin && r.client.writeShut
  {
    RunKeepsInv(actions);
    WholeWhenOver(Upward(Run(actions)));
    WholeWhenOver(Downward(Run(actions)));
  }

  // ---------------------------------------------------------------- the directions are independent

  function OnlyUp(actions: seq<Action>): seq<DirAction> {
    if actions == [] then []
    else
      var last := actions[|actions| - 1];
      OnlyUp(actions[..|actions| - 1]) + (if last.Up? then [last.a] else [])
  }

  function OnlyDown(actions: seq<Action>): seq<DirAction> {
    if actions == [] then []
    else
      var last := actions[|actions| - 1];
      OnlyDown(actions[..|actions| - 1]) + (if last.Down? then [last.a] else [])
  }

  lemma {:induction false} RunDirSnoc(ds: seq<DirAction>, d: DirAction)
    ensures RunDir(ds + [d]) == StepDir(RunDir(ds), d)
  {
    assert (ds + [d])[..|ds|] == ds;
  }

  /** Although they share both sockets, each direction is where its own steps alone would have brought
      it: an early end of one, by FIN or by error, takes nothing away from the other. */
  lemma {:induction false} DirectionsAreIndependent(actions: seq<Action>)
    ensures Upward(Run(actions)) == RunDir(OnlyUp(actions))
    ensures Downward(Run(actions)) == RunDir(OnlyDown(actions))
  {
    if actions == [] {
    } else {
      var most, last := actions[..|actions| - 1], actions[|actions| - 1];
      DirectionsAreIndependent(most);
      RunKeepsInv(most);
      var us, ds := OnlyUp(most), OnlyDown(most);
      assert us + [] == us && ds + [] == ds;
      match last
      case Up(d) =>
        UpStep(Run(most), d);
        RunDirSnoc(us, d);
      case Down(d) =>
        DownStep(Run(most), d);
        RunDirSnoc(ds, d);
      case CloseBackend =>
      case CloseClient =>
    }
  }

  // ---------------------------------------------------------------- completion

  predicate NormalDir(d: DirAction) {
    d.Read? || d.Write? || d.ReadEnds? || d.CloseWrite?
  }

  /** The steps the proxy takes on its own when nothing goes wrong. */
  predicate Normal(a: Action) {
    match a
    case Up(d) => NormalDir(d)
    case Down(d) => NormalDir(d)
    case CloseBackend => true
    case CloseClient => true
  }

  function DirRank(d: Direction): nat
    requires DirInv(d)
  {
    match d.phase
    case Copying => 2 * (|d.sent| - d.taken) + (if d.buf == [] then 0 else 1) + 2
    case Ended => 1
    case Finished => 0
  }

  function Rank(r: Relay): nat
    requires Inv(r)
  {
    DirRank(Upward(r)) + DirRank(Downward(r)) + (if r.backend.closed then 0 else 1) + (if r.client.closed then 0 else 1)
  }

  ghost predicate BothSourcesDone(r: Relay) {
    r.client.peerFin && r.backend.peerFin && !r.up.failed && !r.down.failed
  }

  lemma {:induction false} NormalDirDescends(d: Direction, a: DirAction)
    requires DirInv(d) && NormalDir(a) && StepDir(d, a) != d && d.srcFin && !d.failed
    ensures DirInv(StepDir(d, a)) && DirRank(StepDir(d, a)) < DirRank(d)
    ensures StepDir(d, a).sent == d.sent && StepDir(d, a).srcFin && !StepDir(d, a).failed
  {
    StepDirKeepsInv(d, a);
    if a.Write? {
      assert d.buf == [] ==> d.delivered + d.buf == d.delivered;
    }
  }

  lemma {:induction false} NormalStepDescends(r: Relay, a: Action)
    requires Inv(r) && BothSourcesDone(r) && Normal(a) && Step(r, a) != r
    ensures Inv(Step(r, a)) && BothSourcesDone(Step(r, a))
    ensures Rank(Step(r, a)) < Rank(r)
    ensures Step(r, a).client.inbound == r.client.inbound && Step(r, a).backend.inbound == r.backend.inbound
  {
    StepKeepsInv(r, a);
    match a
    case Up(d) =>
      UpStep(r, d);
      NormalDirDescends(Upward(r), d);
    case Down(d) =>
      DownStep(r, d);
      NormalDirDescends(Downward(r), d);
    case CloseBackend =>
    case CloseClient =>
  }

  function NextDirStep(d: Direction): DirAction
    requires DirInv(d)
  {
    if d.phase.Ended? then CloseWrite
    else if d.buf != [] then Write
    else if d.taken == |d.sent| then ReadEnds
    else Read(1)
  }

  lemma {:induction false} DirCanMove(d: Direction)
    requires DirInv(d) && d.srcFin && !d.phase.Finished?
    ensures NormalDir(NextDirStep(d)) && StepDir(d, NextDirStep(d)) != d
  {
    if d.phase.Copying? && d.buf != [] {
      assert StepDir(d, Write).buf == [];
    }
  }

  /** As long as a socket is open some normal step is possible: neither direction waits for the other. */
  lemma {:induction false} NeverStuck(r: Relay) returns (a: Action)
    requires Inv(r) && BothSourcesDone(r) && !(r.client.closed && r.backend.closed)
    ensures Normal(a) && Step(r, a) != r
  {
    if !r.up.phase.Finished? {
      DirCanMove(Upward(r));
      a := Up(NextDirStep(Upward(r)));
      UpStep(r, a.a);
    } else if !r.down.phase.Finished? {
      DirCanMove(Downward(r));
      a := Down(NextDirStep(Downward(r)));
      DownStep(r, a.a);
    } else if !r.backend.closed {
      a := CloseBackend;
    } else {
      a := CloseClient;
    }
  }

  /** A run of normal steps, each of which does something. */
  ghost predicate NormalRun(r: Relay, steps: seq<Action>)
    decreases |steps|
  {
    steps != [] ==> Normal(steps[0]) && Step(r, steps[0]) != r && NormalRun(Step(r, steps[0]), steps[1..])
  }

  function After(r: Relay, steps: seq<Action>): Relay
    decreases |steps|
  {
    if steps == [] then r else After(Step(r, steps[0]), steps[1..])
  }

  ghost predicate AtRest(r: Relay) {
    forall a :: Normal(a) ==> Step(r, a) == r
  }

  /** Both sockets closed, both streams whole. */
  ghost predicate Complete(r: Relay) {
    && r.client.closed && r.backend.closed
    && r.backend.outbound == r.client.inbound && r.client.outbound == r.backend.inbound
  }

  lemma {:induction false} RestIsComplete(r: Relay)
    requires Inv(r) && BothSourcesDone(r) && AtRest(r)
    ensures Complete(r)
  {
    if !(r.client.closed && r.backend.closed) {
      var a := NeverStuck(r);
      assert false;
    }
    WholeWhenOver(Upward(r));
    WholeWhenOver(Downward(r));
  }

  /** Completion: once both peers have sent their FIN, however early one of them did, every run of
      normal steps is bounded, and one that cannot be continued has closed the sockets with both
      streams delivered whole. */
  lemma {:induction false} RelayCompletes(r: Relay, steps: seq<Action>)
    requires Inv(r) && BothSourcesDone(r) && NormalRun(r, steps)
    ensures |steps| <= Rank(r)
    ensures After(r, steps).client.inbound == r.client.inbound && After(r, steps).backend.inbound == r.backend.inbound
    ensures AtRest(After(r, steps)) ==> Complete(After(r, steps))
    decreases |steps|
  {
    if steps == [] {
      if AtRest(r) {
        RestIsComplete(r);
      }
    } else {
      NormalStepDescends(r, steps[0]);
      RelayCompletes(Step(r, steps[0]), steps[1..]);
    }
  }
}
