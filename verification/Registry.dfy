/** The service registry of internal/registry: a map of services that emits an event for every change
    except heartbeats, to subscribers with bounded channels.

    The map and the subscribers have a lock each. A call that changes the map holds the map's lock
    until it has announced all its events; between two announcements, and before the first, anyone may
    subscribe, unsubscribe or receive. */
module Registry {
  import opened Wrappers

  datatype Service = Service(id: string, name: string, address: string, tags: seq<string>,
                             metadata: map<string, string>, weight: int, ttl: int,
                             registeredAt: int, lastHeartbeat: int)

  datatype Kind = Registered | Deregistered | Expired | Updated
  datatype Event = Event(kind: Kind, service: Service, at: int)

  /** maxServices <= 0 means unlimited. */
  datatype Config = Config(defaultTTL: int, maxServices: int)

  type Store = map<string, Service>

  predicate IsExpired(cfg: Config, s: Service, now: int) {
    now - s.lastHeartbeat > if s.ttl == 0 then cfg.defaultTTL else s.ttl
  }

  const BUFFER := 16

  /** A subscriber's channel: what it holds, and as history where in the event trace it was opened,
      what has been received from it and how many events did not fit. */
  datatype Channel = Channel(since: nat, queue: seq<Event>, taken: seq<Event>, missed: nat)

  function Offer(ch: Channel, e: Event): Channel {
    if |ch.queue| < BUFFER then ch.(queue := ch.queue + [e]) else ch.(missed := ch.missed + 1)
  }

  /** pending holds the events that the call holding the map's lock has still to announce; emitted is
      the history of those announced. */
  datatype State = State(services: Store, pending: seq<Event>, emitted: seq<Event>, channels: map<nat, Channel>)

  const EMPTY := State(map[], [], [], map[])

  function Notify(s: State, e: Event): State {
    s.(emitted := s.emitted + [e], channels := map ch | ch in s.channels :: Offer(s.channels[ch], e))
  }

  /** The next announcement. */
  function Deliver(s: State): State {
    if s.pending == [] then s else Notify(s.(pending := s.pending[1..]), s.pending[0])
  }

  function DeliverAll(s: State): State
    decreases |s.pending|
  {
    if s.pending == [] then s else DeliverAll(Deliver(s))
  }

  // ---------------------------------------------------------------- operations on values, up to their announcements

  function IdOf(svc: Service, generated: string): string {
    if svc.id == "" then generated else svc.id
  }

  predicate HasRoom(cfg: Config, store: Store, id: string) {
    cfg.maxServices > 0 && |store| >= cfg.maxServices ==> id in store
  }

  /** The entry that a registration stores. */
  function Entry(store: Store, svc: Service, id: string, now: int): Service {
    svc.(id := id, weight := if svc.weight <= 0 then 1 else svc.weight,
         registeredAt := if id in store then store[id].registeredAt else now,
         lastHeartbeat := now)
  }

  function DoRegister(cfg: Config, s: State, svc: Service, generated: string, now: int): State {
    var id := IdOf(svc, generated);
    if !HasRoom(cfg, s.services, id) then s
    else
      var entry := Entry(s.services, svc, id, now);
      s.(services := s.services[id := entry],
         pending := [Event(if id in s.services then Updated else Registered, entry, now)])
  }

  function DoDeregister(s: State, id: string, now: int): State {
    if id !in s.services then s
    else s.(services := s.services - {id}, pending := [Event(Deregistered, s.services[id], now)])
  }

  function DoHeartbeat(s: State, id: string, now: int): State {
    if id !in s.services then s
    else s.(services := s.services[id := s.services[id].(lastHeartbeat := now)])
  }

  /** The clock is read again for each service; seen holds those readings. */
  function Reading(seen: map<string, int>, id: string, now: int): int {
    if id in seen then seen[id] else now
  }

  /** A stored service is past its effective TTL when cleanup looks at it. */
  predicate IsLate(cfg: Config, store: Store, id: string, seen: map<string, int>, now: int)
    requires id in store
  {
    IsExpired(cfg, store[id], Reading(seen, id, now))
  }

  function Overdue(cfg: Config, store: Store, seen: map<string, int>, now: int): set<string> {
    set id | id in store && IsLate(cfg, store, id, seen, now)
  }

  /** order names each member of ids exactly once. */
  ghost predicate Lists(order: seq<string>, ids: set<string>) {
    && (forall i :: 0 <= i < |order| ==> order[i] in ids)
    && (forall i, j :: 0 <= i < j < |order| ==> order[i] != order[j])
    && (forall id :: id in ids ==> id in order)
  }

  function Expiries(store: Store, order: seq<string>, now: int): (es: seq<Event>)
    requires forall i :: 0 <= i < |order| ==> order[i] in store
    ensures |es| == |order| && forall i :: 0 <= i < |order| ==> es[i] == Event(Expired, store[order[i]], now)
  {
    seq(|order|, i requires 0 <= i < |order| => Event(Expired, store[order[i]], now))
  }

  /** order is the order in which the map happened to be walked. */
  ghost function DoCleanup(cfg: Config, s: State, seen: map<string, int>, order: seq<string>, now: int): State {
    var gone := Overdue(cfg, s.services, seen, now);
    if Lists(order, gone) then s.(services := s.services - gone, pending := Expiries(s.services, order, now)) else s
  }

  function DoSubscribe(s: State, ch: nat): State {
    s.(channels := s.channels[ch := Channel(|s.emitted|, [], [], 0)])
  }

  function DoUnsubscribe(s: State, ch: nat): State {
    s.(channels := s.channels - {ch})
  }

  function DoReceive(s: State, ch: nat): State {
    if ch !in s.channels || s.channels[ch].queue == [] then s
    else
      var c := s.channels[ch];
      s.(channels := s.channels[ch := c.(queue := c.queue[1..], taken := c.taken + [c.queue[0]])])
  }

  lemma {:induction false} DeliverOne(s: State, e: Event)
    requires s.pending == []
    ensures DeliverAll(s.(pending := [e])) == Notify(s, e)
  {
    var t := s.(pending := [e]);
    assert Deliver(t) == Notify(s, e);
    assert DeliverAll(Notify(s, e)) == Notify(s, e);
  }

  class Registry {
    const config: Config
    var services: Store
    var channels: map<nat, Channel>
    var emitted: seq<Event>  // history: every event passed to notify, in order

    function View(): State
      reads this
    {
      State(services, [], emitted, channels)
    }

    constructor (c: Config)
      ensures View() == EMPTY && config == c
    {
      config := c;
      services, channels, emitted := map[], map[], [];
    }

    method Announcing(e: Event)
      modifies this`channels, this`emitted
      ensures View() == Notify(old(View()), e)
    {
      var todo, done := channels.Keys, map[];
      while todo != {}
        invariant todo <= channels.Keys && channels == old(channels) && emitted == old(emitted)
        invariant done == map ch | ch in channels && ch !in todo :: Offer(channels[ch], e)
      {
        var ch :| ch in todo;
        done := done[ch := Offer(channels[ch], e)];
        todo := todo - {ch};
      }
      channels := done;
      emitted := emitted + [e];
    }

    method Register(svc: Service, generated: string, now: int) returns (id: string, ok: bool)
      modifies this
      ensures View() == DeliverAll(DoRegister(config, old(View()), svc, generated, now))
      ensures ok == HasRoom(config, old(services), IdOf(svc, generated))
      ensures id == if ok then IdOf(svc, generated) else ""
    {
      var s := svc;
      if s.id == "" {
        s := s.(id := generated);
      }
      if config.maxServices > 0 && |services| >= config.maxServices {
        if s.id !in services {
          return "", false;
        }
      }
      if s.weight <= 0 {
        s := s.(weight := 1);
      }
      var kind := Registered;
      if s.id in services {
        kind := Updated;
        s := s.(registeredAt := services[s.id].registeredAt);
      } else {
        s := s.(registeredAt := now);
      }
      s := s.(lastHeartbeat := now);
      services := services[s.id := s];
      DeliverOne(View(), Event(kind, s, now));
      Announcing(Event(kind, s, now));
      return s.id, true;
    }

    method Deregister(id: string, now: int) returns (found: bool)
      modifies this
      ensures View() == DeliverAll(DoDeregister(old(View()), id, now))
      ensures found == (id in old(services))
    {
      if id !in services {
        return false;
      }
      var svc := services[id];
      services := services - {id};
      DeliverOne(View(), Event(Deregistered, svc, now));
      Announcing(Event(Deregistered, svc, now));
      return true;
    }

    method Heartbeat(id: string, now: int) returns (found: bool)
      modifies this`services
      ensures View() == DoHeartbeat(old(View()), id, now)
      ensures found == (id in old(services))
    {
      if id !in services {
        return false;
      }
      services := services[id := services[id].(lastHeartbeat := now)];
      return true;
    }

    /** The first loop of cleanupExpired: takes the overdue services out of the map. */
    method RemoveOverdue(seen: map<string, int>, now: int) returns (expired: seq<Service>, ghost order: seq<string>)
      modifies this`services
      ensures Lists(order, Overdue(config, old(services), seen, now))
      ensures |expired| == |order|
      ensures forall i :: 0 <= i < |order| ==> expired[i] == old(services)[order[i]]
      ensures services == old(services) - Overdue(config, old(services), seen, now)
    {
      ghost var before, gone := services, Overdue(config, services, seen, now);
      var todo := services.Keys;
      expired, order := [], [];
      while todo != {}
        invariant todo <= before.Keys && |expired| == |order|
        invariant forall i :: 0 <= i < |order| ==> order[i] in before && expired[i] == before[order[i]]
        invariant Lists(order, gone - todo)
        invariant services == before - (gone - todo)
      {
        var id :| id in todo;
        todo := todo - {id};
        if IsExpired(config, services[id], Reading(seen, id, now)) {
          expired := expired + [services[id]];
          services := services - {id};
          order := order + [id];
        }
      }
      assert gone - {} == gone;
    }

    /** Removes exactly the overdue services, then announces each of them once. */
    method CleanupExpired(seen: map<string, int>, now: int) returns (ghost order: seq<string>)
      modifies this
      ensures Lists(order, Overdue(config, old(services), seen, now))
      ensures View() == DeliverAll(DoCleanup(config, old(View()), seen, order, now))
    {
      ghost var before := services;
      var expired;
      expired, order := RemoveOverdue(seen, now);
      ghost var events := Expiries(before, order, now);
      ghost var started := View().(pending := events);
      for i := 0 to |expired|
        invariant DeliverAll(View().(pending := events[i..])) == DeliverAll(started)
      {
        assert events[i..][1..] == events[i + 1..];
        Announcing(Event(Expired, expired[i], now));
      }
    }

    method Subscribe(ch: nat)
      requires ch !in channels
      modifies this`channels
      ensures View() == DoSubscribe(old(View()), ch)
    {
      channels := channels[ch := Channel(|emitted|, [], [], 0)];
    }

    method Unsubscribe(ch: nat)
      modifies this`channels
      ensures View() == DoUnsubscribe(old(View()), ch)
    {
      channels := channels - {ch};
    }

    /** A receive by the subscriber from its channel. */
    method Receive(ch: nat) returns (e: Option<Event>)
      modifies this`channels
      ensures View() == DoReceive(old(View()), ch)
      ensures e.Some? <==> ch in old(channels) && old(channels)[ch].queue != []
      ensures e.Some? ==> e.value == old(channels)[ch].queue[0]
    {
      if ch !in channels || channels[ch].queue == [] {
        return None;
      }
      var c := channels[ch];
      channels := channels[ch := c.(queue := c.queue[1..], taken := c.taken + [c.queue[0]])];
      return Some(c.queue[0]);
    }
  }

  // ---------------------------------------------------------------- whole runs

  datatype Op =
    | Register(svc: Service, generated: string, now: int)
    | Deregister(id: string, now: int)
    | Heartbeat(id: string, now: int)
    | Cleanup(seen: map<string, int>, order: seq<string>, now: int)
    | Announce
    | Subscribe(ch: nat)
    | Unsubscribe(ch: nat)
    | Receive(ch: nat)

  /** The operations that need the map's lock. */
  predicate NeedsLock(op: Op) {
    op.Register? || op.Deregister? || op.Heartbeat? || op.Cleanup?
  }

  /** One step of one caller; an operation that needs a lock somebody holds does not happen yet. */
  ghost function Do(cfg: Config, s: State, op: Op): State {
    if NeedsLock(op) && s.pending != [] then s
    else
      match op
      case Register(svc, generated, now) => DoRegister(cfg, s, svc, generated, now)
      case Deregister(id, now) => DoDeregister(s, id, now)
      case Heartbeat(id, now) => DoHeartbeat(s, id, now)
      case Cleanup(seen, order, now) => DoCleanup(cfg, s, seen, order, now)
      case Announce => Deliver(s)
      case Subscribe(ch) => if ch in s.channels then s else DoSubscribe(s, ch)
      case Unsubscribe(ch) => DoUnsubscribe(s, ch)
      case Receive(ch) => DoReceive(s, ch)
  }

  ghost function Run(cfg: Config, ops: seq<Op>): State {
    if ops == [] then EMPTY else Do(cfg, Run(cfg, ops[..|ops| - 1]), ops[|ops| - 1])
  }

  // ---------------------------------------------------------------- the trace explains the map

  /** A reader that knows nothing but the events. */
  function Replay(events: seq<Event>): Store {
    if events == [] then map[]
    else
      var known, e := Replay(events[..|events| - 1]), events[|events| - 1];
      if e.kind.Registered? || e.kind.Updated? then known[e.service.id := e.service] else known - {e.service.id}
  }

  /** Two stores that agree on everything but the heartbeat times. */
  ghost predicate SameButHeartbeats(a: Store, b: Store) {
    && a.Keys == b.Keys
    && (forall id :: id in a.Keys ==> a[id] == b[id].(lastHeartbeat := a[id].lastHeartbeat))
  }

  datatype Life = Absent | Present | Broken

  function Live(life: Life, kind: Kind): Life {
    match kind
    case Registered => if life.Absent? then Present else Broken
    case Updated => if life.Present? then Present else Broken
    case Deregistered => if life.Present? then Absent else Broken
    case Expired => if life.Present? then Absent else Broken
  }

  /** The automaton of (Registered Updated* (Deregistered | Expired))* for one id. */
  function LifeOf(events: seq<Event>, id: string): Life {
    if events == [] then Absent
    else
      var life, e := LifeOf(events[..|events| - 1], id), events[|events| - 1];
      if e.service.id == id then Live(life, e.kind) else life
  }

  /** When id last appeared. */
  function Born(events: seq<Event>, id: string): int {
    if events == [] then 0
    else
      var e := events[|events| - 1];
      if e.service.id == id && e.kind.Registered? then e.at else Born(events[..|events| - 1], id)
  }

  ghost predicate WellFormed(store: Store) {
    forall id :: id in store ==> store[id].id == id && store[id].weight >= 1
  }

  ghost predicate LivesMatch(trace: seq<Event>, store: Store) {
    forall id: string :: LifeOf(trace, id) == if id in store then Present else Absent
  }

  ghost predicate BirthsMatch(trace: seq<Event>, store: Store) {
    forall id :: id in store ==> store[id].registeredAt == Born(trace, id)
  }

  ghost predicate Explains(trace: seq<Event>, store: Store) {
    WellFormed(store) && SameButHeartbeats(Replay(trace), store)
    && LivesMatch(trace, store) && BirthsMatch(trace, store)
  }

  /** The events announced so far, and those that the holder of the lock is about to announce. */
  function Trace(s: State): seq<Event> {
    s.emitted + s.pending
  }

  lemma {:induction false} OneMore(trace: seq<Event>, e: Event)
    ensures Replay(trace + [e]) ==
              if e.kind.Registered? || e.kind.Updated? then Replay(trace)[e.service.id := e.service]
              else Replay(trace) - {e.service.id}
    ensures LifeOf(trace + [e], e.service.id) == Live(LifeOf(trace, e.service.id), e.kind)
    ensures forall id :: id != e.service.id ==> LifeOf(trace + [e], id) == LifeOf(trace, id)
    ensures e.kind.Registered? ==> Born(trace + [e], e.service.id) == e.at
    ensures forall id :: id != e.service.id || !e.kind.Registered? ==> Born(trace + [e], id) == Born(trace, id)
  {
    assert (trace + [e])[..|trace|] == trace;
  }

  /** Announcing what was stored keeps the trace faithful. */
  lemma {:induction false} StoringExplains(trace: seq<Event>, store: Store, e: Event)
    requires Explains(trace, store) && e.service.weight >= 1
    requires e.kind == if e.service.id in store then Updated else Registered
    requires e.service.registeredAt == if e.service.id in store then store[e.service.id].registeredAt else e.at
    ensures Explains(trace + [e], store[e.service.id := e.service])
  {
    OneMore(trace, e);
  }

  /** Announcing what was removed keeps the trace faithful. */
  lemma {:induction false} RemovingExplains(trace: seq<Event>, store: Store, e: Event)
    requires Explains(trace, store) && e.service.id in store && (e.kind.Deregistered? || e.kind.Expired?)
    ensures Explains(trace + [e], store - {e.service.id})
  {
    OneMore(trace, e);
  }

  function Members(order: seq<string>): set<string> {
    set id | id in order
  }

  lemma {:induction false} OneExpiryExplains(known: seq<Event>, store: Store, gone: set<string>, last: string, now: int)
    requires Explains(known, store - gone) && last in store && last !in gone
    ensures Explains(known + [Event(Expired, store[last], now)], store - (gone + {last}))
  {
    assert (store - gone)[last] == store[last];
    RemovingExplains(known, store - gone, Event(Expired, store[last], now));
    assert store - gone - {last} == store - (gone + {last});
  }

  lemma {:induction false} OneMoreExpiry(store: Store, order: seq<string>, most: seq<string>, last: string, now: int)
    requires order == most + [last] && forall i :: 0 <= i < |order| ==> order[i] in store
    requires last in store && forall i :: 0 <= i < |most| ==> most[i] in store && most[i] != last
    ensures Expiries(store, order, now) == Expiries(store, most, now) + [Event(Expired, store[last], now)]
    ensures Members(order) == Members(most) + {last} && last !in Members(most)
  {
  }

  lemma {:induction false} NextExpiryExplains(known: seq<Event>, trace: seq<Event>, store: Store, order: seq<string>,
                                              most: seq<string>, last: string, now: int)
    requires order == most + [last] && (forall i :: 0 <= i < |order| ==> order[i] in store)
    requires last in store && forall i :: 0 <= i < |most| ==> most[i] in store && most[i] != last
    requires known == trace + Expiries(store, most, now) && Explains(known, store - Members(most))
    ensures Explains(trace + Expiries(store, order, now), store - Members(order))
  {
    OneMoreExpiry(store, order, most, last, now);
    OneExpiryExplains(known, store, Members(most), last, now);
    assert trace + Expiries(store, order, now) == known + [Event(Expired, store[last], now)];
  }

  lemma {:induction false} ExpiriesExplain(trace: seq<Event>, store: Store, order: seq<string>, now: int)
    requires Explains(trace, store)
    requires forall i :: 0 <= i < |order| ==> order[i] in store
    requires forall i, j :: 0 <= i < j < |order| ==> order[i] != order[j]
    ensures Explains(trace + Expiries(store, order, now), store - Members(order))
  {
    if order == [] {
      assert store - Members([]) == store;
      assert trace + [] == trace;
    } else {
      var most, last := order[..|order| - 1], order[|order| - 1];
      assert order == most + [last];
      ExpiriesExplain(trace, store, most, now);
      NextExpiryExplains(trace + Expiries(store, most, now), trace, store, order, most, last, now);
    }
  }

  lemma {:induction false} CleanupExplains(cfg: Config, s: State, seen: map<string, int>, order: seq<string>, now: int)
    requires s.pending == [] && Explains(s.emitted, s.services)
    ensures Explains(Trace(DoCleanup(cfg, s, seen, order, now)), DoCleanup(cfg, s, seen, order, now).services)
  {
    var gone := Overdue(cfg, s.services, seen, now);
    if Lists(order, gone) {
      ExpiriesExplain(s.emitted, s.services, order, now);
      assert gone == Members(order);
    } else {
      assert s.emitted + [] == s.emitted;
    }
  }

  lemma {:induction false} RegisterExplains(cfg: Config, s: State, svc: Service, generated: string, now: int)
    requires s.pending == [] && Explains(s.emitted, s.services)
    ensures Explains(Trace(DoRegister(cfg, s, svc, generated, now)), DoRegister(cfg, s, svc, generated, now).services)
  {
    var id := IdOf(svc, generated);
    if HasRoom(cfg, s.services, id) {
      var entry := Entry(s.services, svc, id, now);
      StoringExplains(s.emitted, s.services, Event(if id in s.services then Updated else Registered, entry, now));
    } else {
      assert s.emitted + [] == s.emitted;
    }
  }

  lemma {:induction false} DeregisterExplains(s: State, id: string, now: int)
    requires s.pending == [] && Explains(s.emitted, s.services)
    ensures Explains(Trace(DoDeregister(s, id, now)), DoDeregister(s, id, now).services)
  {
    if id in s.services {
      RemovingExplains(s.emitted, s.services, Event(Deregistered, s.services[id], now));
    } else {
      assert s.emitted + [] == s.emitted;
    }
  }

  lemma HeartbeatExplains(trace: seq<Event>, store: Store, id: string, now: int)
    requires Explains(trace, store) && id in store
    ensures Explains(trace, store[id := store[id].(lastHeartbeat := now)])
  {
  }

  lemma {:induction false} DeliverKeepsTrace(s: State)
    ensures Trace(Deliver(s)) == Trace(s) && Deliver(s).services == s.services
  {
    if s.pending != [] {
      assert s.pending == [s.pending[0]] + s.pending[1..];
    }
  }

  lemma {:induction false} DoKeepsExplained(cfg: Config, s: State, op: Op)
    requires Explains(Trace(s), s.services)
    ensures Explains(Trace(Do(cfg, s, op)), Do(cfg, s, op).services)
  {
    if NeedsLock(op) && s.pending == [] {
      assert s.emitted + [] == s.emitted;
      match op
      case Register(svc, generated, now) => RegisterExplains(cfg, s, svc, generated, now);
      case Deregister(id, now) => DeregisterExplains(s, id, now);
      case Heartbeat(id, now) =>
        if id in s.services {
          HeartbeatExplains(s.emitted, s.services, id, now);
        }
      case Cleanup(seen, order, now) => CleanupExplains(cfg, s, seen, order, now);
    } else if op.Announce? {
      DeliverKeepsTrace(s);
    }
  }

  /** In every run, and in the middle of any announcements, the event trace alone rebuilds the map up to
      heartbeat times, tells for every id the lives it had, one after the other, and dates the current one. */
  lemma {:induction false} TraceExplainsRegistry(cfg: Config, ops: seq<Op>)
    ensures Explains(Trace(Run(cfg, ops)), Run(cfg, ops).services)
  {
    if ops == [] {
    } else {
      TraceExplainsRegistry(cfg, ops[..|ops| - 1]);
      DoKeepsExplained(cfg, Run(cfg, ops[..|ops| - 1]), ops[|ops| - 1]);
    }
  }

  // ---------------------------------------------------------------- capacity

  lemma {:induction false} DoStaysWithinLimit(cfg: Config, s: State, op: Op)
    requires |s.services| <= cfg.maxServices && cfg.maxServices > 0
    ensures |Do(cfg, s, op).services| <= cfg.maxServices
  {
    match op
    case Register(svc, generated, now) =>
      PutSize(s.services, IdOf(svc, generated), Entry(s.services, svc, IdOf(svc, generated), now));
    case Deregister(id, now) => RemoveSize(s.services, {id});
    case Heartbeat(id, now) =>
      if id in s.services {
        PutSize(s.services, id, s.services[id].(lastHeartbeat := now));
      }
    case Cleanup(seen, order, now) => RemoveSize(s.services, Overdue(cfg, s.services, seen, now));
    case _ =>
  }

  /** A positive MaxServices is never exceeded. */
  lemma {:induction false} RunStaysWithinLimit(cfg: Config, ops: seq<Op>)
    requires cfg.maxServices > 0
    ensures |Run(cfg, ops).services| <= cfg.maxServices
  {
    if ops == [] {
    } else {
      RunStaysWithinLimit(cfg, ops[..|ops| - 1]);
      DoStaysWithinLimit(cfg, Run(cfg, ops[..|ops| - 1]), ops[|ops| - 1]);
    }
  }

  lemma {:induction false} PutSize(m: Store, id: string, s: Service)
    ensures |m[id := s]| == |m| + (if id in m then 0 else 1)
  {
    assert m[id := s].Keys == m.Keys + {id};
    assert |m[id := s]| == |m[id := s].Keys| && |m| == |m.Keys|;
  }

  lemma {:induction false} RemoveSize(m: Store, ids: set<string>)
    ensures |m - ids| <= |m|
  {
    SubsetSize((m - ids).Keys, m.Keys);
    assert |m - ids| == |(m - ids).Keys| && |m| == |m.Keys|;
  }

  lemma {:induction false} SubsetSize(a: set<string>, b: set<string>)
    requires a <= b
    ensures |a| <= |b|
  {
    if a == {} {
    } else {
      var x :| x in a;
      SubsetSize(a - {x}, b - {x});
    }
  }

  // ---------------------------------------------------------------- what is stored

  /** A registration of id that the registry accepts: nobody holds the lock, and the id is there already
      or there is room. */
  ghost predicate Accepted(cfg: Config, s: State, op: Op, id: string) {
    && op.Register? && s.pending == [] && id == (if op.svc.id != "" then op.svc.id else op.generated)
    && (id in s.services || cfg.maxServices <= 0 || |s.services| < cfg.maxServices)
  }

  /** All that a caller says of a service, under the id it gets; a weight that is not positive counts as 1. */
  ghost predicate StoredAs(stored: Service, svc: Service, id: string) {
    && stored.id == id && stored.name == svc.name && stored.address == svc.address && stored.tags == svc.tags
    && stored.metadata == svc.metadata && stored.ttl == svc.ttl
    && stored.weight == if svc.weight > 0 then svc.weight else 1
  }

  /** Every id but this one is as it was. */
  ghost predicate OthersKept(a: Store, b: Store, id: string) {
    forall o: string :: o != id ==> (o in a <==> o in b) && (o in a ==> a[o] == b[o])
  }

  /** An accepted registration stores the service as it was given and announces exactly that; a refused
      one changes nothing; no other id is touched. */
  lemma {:induction false} RegisterMeans(cfg: Config, s: State, op: Op, id: string)
    requires op.Register? && id == if op.svc.id != "" then op.svc.id else op.generated
    ensures var t := Do(cfg, s, op);
      && OthersKept(s.services, t.services, id) && t.emitted == s.emitted && t.channels == s.channels
      && (!Accepted(cfg, s, op, id) ==> t == s)
      && (Accepted(cfg, s, op, id) ==>
            && id in t.services && StoredAs(t.services[id], op.svc, id)
            && t.pending == [Event(if id in s.services then Updated else Registered, t.services[id], op.now)])
  {
  }

  /** A deregistration that gets the lock takes its id out, announces what was there, and touches no other. */
  lemma {:induction false} DeregisterMeans(cfg: Config, s: State, id: string, now: int)
    requires s.pending == []
    ensures var t := Do(cfg, s, Deregister(id, now));
      && id !in t.services && OthersKept(s.services, t.services, id)
      && t.pending == if id in s.services then [Event(Deregistered, s.services[id], now)] else []
  {
  }

  /** The service given in the last accepted registration of id. */
  ghost function LastRegistered(cfg: Config, ops: seq<Op>, id: string): Option<Service> {
    if ops == [] then None
    else
      var most, op := ops[..|ops| - 1], ops[|ops| - 1];
      if Accepted(cfg, Run(cfg, most), op, id) then Some(op.svc) else LastRegistered(cfg, most, id)
  }

  /** What an operation other than an accepted registration of id leaves of it. */
  lemma {:induction false} DoKeepsStored(cfg: Config, s: State, op: Op, id: string)
    requires id in Do(cfg, s, op).services && !Accepted(cfg, s, op, id)
    ensures id in s.services
    ensures Do(cfg, s, op).services[id] == s.services[id].(lastHeartbeat := Do(cfg, s, op).services[id].lastHeartbeat)
  {
  }

  /** Over whole runs: what is stored under an id is what its last accepted registration said. */
  lemma {:induction false} StoredIsLastRegistered(cfg: Config, ops: seq<Op>, id: string)
    requires id in Run(cfg, ops).services
    ensures LastRegistered(cfg, ops, id).Some?
    ensures StoredAs(Run(cfg, ops).services[id], LastRegistered(cfg, ops, id).value, id)
  {
    var most, op := ops[..|ops| - 1], ops[|ops| - 1];
    if Accepted(cfg, Run(cfg, most), op, id) {
      RegisterMeans(cfg, Run(cfg, most), op, id);
    } else {
      DoKeepsStored(cfg, Run(cfg, most), op, id);
      StoredIsLastRegistered(cfg, most, id);
    }
  }

  // ---------------------------------------------------------------- expiry

  /** Cleanup keeps a service exactly when it is not past its effective TTL, and leaves it as it was. */
  lemma {:induction false} CleanupIsExact(cfg: Config, s: State, seen: map<string, int>, order: seq<string>, now: int)
    requires Lists(order, Overdue(cfg, s.services, seen, now))
    ensures var t := DoCleanup(cfg, s, seen, order, now);
      && (forall id :: id in t.services <==> id in s.services && !IsLate(cfg, s.services, id, seen, now))
      && (forall id :: id in t.services ==> t.services[id] == s.services[id])
      && (forall e :: e in t.pending <==>
            exists id :: id in s.services && id !in t.services && e == Event(Expired, s.services[id], now))
  {
    var t := DoCleanup(cfg, s, seen, order, now);
    forall e | e in t.pending
      ensures exists id :: id in s.services && id !in t.services && e == Event(Expired, s.services[id], now)
    {
      var i :| 0 <= i < |order| && t.pending[i] == e;
      assert order[i] in s.services && order[i] !in t.services && e == Event(Expired, s.services[order[i]], now);
    }
    forall id | id in s.services && id !in t.services ensures Event(Expired, s.services[id], now) in t.pending {
      var i :| 0 <= i < |order| && order[i] == id;
      assert t.pending[i] == Event(Expired, s.services[id], now);
    }
  }

  /** op is a registration or a heartbeat of id. */
  predicate Touches(op: Op, id: string) {
    (op.Heartbeat? && op.id == id) || (op.Register? && IdOf(op.svc, op.generated) == id)
  }

  /** When id last sent a heartbeat or registered. */
  ghost function LastTouch(cfg: Config, ops: seq<Op>, id: string): int {
    if ops == [] then 0
    else
      var most, op := ops[..|ops| - 1], ops[|ops| - 1];
      if Touches(op, id) && Run(cfg, most).pending == [] then op.now else LastTouch(cfg, most, id)
  }

  lemma {:induction false} HeartbeatIsLastTouch(cfg: Config, ops: seq<Op>, id: string)
    requires id in Run(cfg, ops).services
    ensures Run(cfg, ops).services[id].lastHeartbeat == LastTouch(cfg, ops, id)
  {
    var most, op := ops[..|ops| - 1], ops[|ops| - 1];
    if !(Touches(op, id) && Run(cfg, most).pending == []) {
      HeartbeatIsLastTouch(cfg, most, id);
    }
  }

  /** Over whole runs: a cleanup pass removes a service exactly when more than its effective TTL has
      gone by since it last registered or sent a heartbeat. */
  lemma {:induction false} ExpiresIffSilent(cfg: Config, ops: seq<Op>, pass: Op, id: string)
    requires id in Run(cfg, ops).services && pass.Cleanup?
    requires Lists(pass.order, Overdue(cfg, Run(cfg, ops).services, pass.seen, pass.now))
    ensures var s := Run(cfg, ops);
      var ttl := if s.services[id].ttl == 0 then cfg.defaultTTL else s.services[id].ttl;
      id !in DoCleanup(cfg, s, pass.seen, pass.order, pass.now).services <==>
      Reading(pass.seen, id, pass.now) - LastTouch(cfg, ops, id) > ttl
  {
    HeartbeatIsLastTouch(cfg, ops, id);
    CleanupIsExact(cfg, Run(cfg, ops), pass.seen, pass.order, pass.now);
  }

  // ---------------------------------------------------------------- subscribers

  /** a is what is left of b after dropping some of its events. */
  ghost predicate Thinned(a: seq<Event>, b: seq<Event>) {
    if b == [] then a == []
    else
      || Thinned(a, b[..|b| - 1])
      || (a != [] && a[|a| - 1] == b[|b| - 1] && Thinned(a[..|a| - 1], b[..|b| - 1]))
  }

  lemma {:induction false} ThinnedMore(a: seq<Event>, b: seq<Event>, e: Event)
    requires Thinned(a, b)
    ensures Thinned(a, b + [e]) && Thinned(a + [e], b + [e])
  {
    assert (b + [e])[..|b|] == b && (a + [e])[..|a|] == a;
  }

  /** Everything a subscriber got or will get is a thinning of the trace since it subscribed; its
      losses are counted; and with no losses it is the whole of it. */
  ghost predicate Hears(ch: Channel, emitted: seq<Event>) {
    && |ch.queue| <= BUFFER && ch.since <= |emitted|
    && |ch.taken| + |ch.queue| + ch.missed == |emitted| - ch.since
    && Thinned(ch.taken + ch.queue, emitted[ch.since..])
    && (ch.missed == 0 ==> ch.taken + ch.queue == emitted[ch.since..])
  }

  lemma {:induction false} OfferIsHeard(ch: Channel, emitted: seq<Event>, e: Event)
    requires Hears(ch, emitted)
    ensures Hears(Offer(ch, e), emitted + [e])
  {
    var a, b := ch.taken + ch.queue, emitted[ch.since..];
    assert (emitted + [e])[ch.since..] == b + [e];
    ThinnedMore(a, b, e);
    assert ch.taken + (ch.queue + [e]) == a + [e];
  }

  ghost predicate AllHear(s: State) {
    forall ch :: ch in s.channels ==> Hears(s.channels[ch], s.emitted)
  }

  lemma {:induction false} DeliverIsHeard(s: State)
    requires AllHear(s)
    ensures AllHear(Deliver(s))
  {
    if s.pending != [] {
      var e := s.pending[0];
      forall ch | ch in s.channels ensures Hears(Offer(s.channels[ch], e), s.emitted + [e]) {
        OfferIsHeard(s.channels[ch], s.emitted, e);
      }
    }
  }

  /** An announcement is lost on a subscriber if and only if 16 events are waiting for it. */
  lemma {:induction false} LostIffFull(s: State, ch: nat)
    requires s.pending != [] && ch in s.channels
    ensures var before, t := s.channels[ch], Deliver(s);
      && ch in t.channels && t.channels[ch].taken == before.taken
      && (t.channels[ch].missed > before.missed <==> |before.queue| >= 16)
      && (|before.queue| < 16 ==> t.channels[ch].queue == before.queue + [s.pending[0]])
  {
  }

  lemma {:induction false} ReceiveIsHeard(ch: Channel, emitted: seq<Event>)
    requires Hears(ch, emitted) && ch.queue != []
    ensures Hears(ch.(queue := ch.queue[1..], taken := ch.taken + [ch.queue[0]]), emitted)
  {
    assert ch.taken + [ch.queue[0]] + ch.queue[1..] == ch.taken + ch.queue;
  }

  lemma {:induction false} DoKeepsHearing(cfg: Config, s: State, op: Op)
    requires AllHear(s)
    ensures AllHear(Do(cfg, s, op))
  {
    match op
    case Announce => DeliverIsHeard(s);
    case Subscribe(ch) => assert s.emitted[|s.emitted|..] == [];
    case Receive(ch) =>
      if ch in s.channels && s.channels[ch].queue != [] {
        ReceiveIsHeard(s.channels[ch], s.emitted);
      }
    case _ =>
  }

  /** Every open channel, in every run. */
  lemma {:induction false} SubscribersHear(cfg: Config, ops: seq<Op>)
    ensures AllHear(Run(cfg, ops))
  {
    if ops == [] {
    } else {
      SubscribersHear(cfg, ops[..|ops| - 1]);
      DoKeepsHearing(cfg, Run(cfg, ops[..|ops| - 1]), ops[|ops| - 1]);
    }
  }

  /** A subscriber there from the start that kept up can rebuild the registry from its channel, as
      soon as nobody has anything left to announce. */
  lemma {:induction false} SubscriberRebuildsRegistry(cfg: Config, ops: seq<Op>, ch: nat)
    requires ch in Run(cfg, ops).channels
    requires Run(cfg, ops).channels[ch].since == 0 && Run(cfg, ops).channels[ch].missed == 0
    ensures var c, s := Run(cfg, ops).channels[ch], Run(cfg, ops);
      && SameButHeartbeats(Replay(c.taken + c.queue + s.pending), s.services)
      && (s.pending == [] ==> SameButHeartbeats(Replay(c.taken + c.queue), s.services))
  {
    SubscribersHear(cfg, ops);
    TraceExplainsRegistry(cfg, ops);
    var c, s := Run(cfg, ops).channels[ch], Run(cfg, ops);
    assert s.emitted[0..] == s.emitted;
    assert c.taken + c.queue + [] == c.taken + c.queue;
  }
}
