/** The route table of internal/router: kept in order of specificity, searched first to last. */
module Router {
  import opened Wrappers

  /** An empty host, prefix or method list matches anything. */
  datatype Route = Route(name: string, host: string, pathPrefix: string, methods: seq<string>, handler: int)

  datatype Request = Request(host: string, path: string, verb: string)

  predicate IsMoreSpecific(a: Route, b: Route) {
    if a.host != "" && b.host == "" then true
    else if a.host == "" && b.host != "" then false
    else |a.pathPrefix| > |b.pathPrefix|
  }

  // ---------------------------------------------------------------- matching

  function LastIndex(s: string, c: char): (r: int)
    ensures -1 <= r < |s|
    ensures r >= 0 ==> s[r] == c
    ensures forall i :: r < i < |s| ==> s[i] != c
  {
    if s == "" then -1 else if s[|s| - 1] == c then |s| - 1 else LastIndex(s[..|s| - 1], c)
  }

  function StripPort(host: string): string {
    var i := LastIndex(host, ':');
    if i == -1 then host else host[..i]
  }

  /** A host that ends in a colon and a port loses exactly those; a host is left alone if and only if it
      has no colon. */
  lemma {:induction false} StripPortMeans(host: string, port: string)
    requires ':' !in port
    ensures StripPort(host + ":" + port) == host
    ensures StripPort(host) == host <==> ':' !in host
  {
    var s := host + ":" + port;
    assert s[|host|] == ':';
    assert forall i :: |host| < i < |s| ==> s[i] == port[i - |host| - 1];
    assert LastIndex(s, ':') == |host|;
    assert s[..|host|] == host;
    assert ':' !in host <==> LastIndex(host, ':') == -1;
  }

  /** So an IPv6 literal without a port loses its last group. */
  lemma {:induction false} StripPortCutsLiteral()
    ensures StripPort("[::1]") == "[:"
  {
    var s := "[::1]";
    assert s == "[:" + ":" + "1]";
    StripPortMeans("[:", "1]");
  }

  /** fold maps a character to the one that stands for all that differ from it only in case; the
      tables of Unicode's simple folding are a parameter. */
  predicate EqualFold(fold: char -> char, a: string, b: string) {
    |a| == |b| && forall i :: 0 <= i < |a| ==> fold(a[i]) == fold(b[i])
  }

  /** All criteria that the route names hold of the request. */
  predicate Matches(fold: char -> char, r: Route, req: Request) {
    && (r.host == "" || StripPort(req.host) == r.host)
    && r.pathPrefix <= req.path
    && (r.methods == [] || exists i :: 0 <= i < |r.methods| && EqualFold(fold, r.methods[i], req.verb))
  }

  /** The host of a request is h itself, without a port, or h with one. */
  ghost predicate NamesHost(requested: string, h: string) {
    || (requested == h && ':' !in h)
    || (h + ":" <= requested && ':' !in requested[|h| + 1..])
  }

  lemma {:induction false} StripPortIff(requested: string, h: string)
    ensures StripPort(requested) == h <==> NamesHost(requested, h)
  {
    if h + ":" <= requested {
      var port := requested[|h| + 1..];
      assert requested == h + ":" + port;
      if ':' !in port {
        StripPortMeans(h, port);
      }
    }
    var i := LastIndex(requested, ':');
    if i >= 0 {
      assert requested == requested[..i] + ":" + requested[i + 1..];
      assert ':' !in requested[i + 1..];
    }
  }

  /** A route matches a request if and only if the request asks for its host, if it names one, for a path
      under its prefix, and with one of its methods, if it lists any, up to case. */
  lemma {:induction false} MatchesIff(fold: char -> char, r: Route, req: Request)
    ensures Matches(fold, r, req) <==>
              && (r.host != "" ==> NamesHost(req.host, r.host))
              && |r.pathPrefix| <= |req.path| && req.path[..|r.pathPrefix|] == r.pathPrefix
              && (r.methods != [] ==>
                    exists m ::
                      && m in r.methods && |m| == |req.verb|
                      && (forall j :: 0 <= j < |m| ==> fold(m[j]) == fold(req.verb[j])))
  {
    StripPortIff(req.host, r.host);
    if m :| m in r.methods && EqualFold(fold, m, req.verb) {
      var i :| 0 <= i < |r.methods| && r.methods[i] == m;
    }
  }

  method CheckMatch(fold: char -> char, r: Route, req: Request) returns (ok: bool)
    ensures ok == Matches(fold, r, req)
  {
    if r.host != "" {
      var host := req.host;
      var idx := LastIndex(host, ':');
      if idx != -1 {
        host := host[..idx];
      }
      if host != r.host {
        return false;
      }
    }
    if r.pathPrefix != "" {
      if !(r.pathPrefix <= req.path) {
        return false;
      }
    }
    if |r.methods| > 0 {
      var methodAllowed := false;
      for i := 0 to |r.methods|
        invariant !methodAllowed && forall j :: 0 <= j < i ==> !EqualFold(fold, r.methods[j], req.verb)
      {
        if EqualFold(fold, r.methods[i], req.verb) {
          methodAllowed := true;
          break;
        }
      }
      if !methodAllowed {
        return false;
      }
    }
    return true;
  }

  // ---------------------------------------------------------------- the table

  /** A route together with the number of its AddRoute call. */
  datatype Slot = Slot(route: Route, stamp: nat)

  /** a goes before b: it is more specific, or equally specific and added earlier. */
  predicate Before(a: Slot, b: Slot) {
    IsMoreSpecific(a.route, b.route) || (!IsMoreSpecific(b.route, a.route) && a.stamp < b.stamp)
  }

  ghost predicate Ranked(t: seq<Slot>) {
    forall i, j :: 0 <= i < j < |t| ==> Before(t[i], t[j])
  }

  ghost predicate Stamped(t: seq<Slot>, added: nat) {
    forall i :: 0 <= i < |t| ==> t[i].stamp < added
  }

  /** Before the first entry that it is more specific than. */
  function PlaceFor(t: seq<Slot>, r: Route): (k: nat)
    ensures k <= |t|
    ensures k < |t| ==> IsMoreSpecific(r, t[k].route)
    ensures forall i :: 0 <= i < k ==> !IsMoreSpecific(r, t[i].route)
  {
    if t == [] || IsMoreSpecific(r, t[0].route) then 0 else 1 + PlaceFor(t[1..], r)
  }

  function Insert(t: seq<Slot>, s: Slot): seq<Slot> {
    t[..PlaceFor(t, s.route)] + [s] + t[PlaceFor(t, s.route)..]
  }

  function PlaceOf(t: seq<Slot>, name: string): (k: nat)
    ensures k <= |t|
    ensures k < |t| ==> t[k].route.name == name
    ensures forall i :: 0 <= i < k ==> t[i].route.name != name
  {
    if t == [] || t[0].route.name == name then 0 else 1 + PlaceOf(t[1..], name)
  }

  function Remove(t: seq<Slot>, name: string): seq<Slot> {
    var k := PlaceOf(t, name);
    if k < |t| then t[..k] + t[k + 1..] else t
  }

  function Routes(t: seq<Slot>): (r: seq<Route>)
    ensures |r| == |t|
  {
    seq(|t|, i requires 0 <= i < |t| => t[i].route)
  }

  lemma {:induction false} RankWithOneMore(t: seq<Slot>, k: nat, s: Slot)
    requires Ranked(t) && k <= |t|
    requires forall i :: 0 <= i < k ==> Before(t[i], s)
    requires forall i :: k <= i < |t| ==> Before(s, t[i])
    ensures Ranked(t[..k] + [s] + t[k..])
  {
    var r := t[..k] + [s] + t[k..];
    forall i, j | 0 <= i < j < |r| ensures Before(r[i], r[j]) {
      var p, q := if i < k then i else i - 1, if j < k then j else j - 1;
      if i != k && j != k {
        assert r[i] == t[p] && r[j] == t[q] && p < q;
      }
    }
  }

  lemma {:induction false} InsertKeepsRank(t: seq<Slot>, s: Slot)
    requires Ranked(t) && Stamped(t, s.stamp)
    ensures Ranked(Insert(t, s)) && Stamped(Insert(t, s), s.stamp + 1)
  {
    var k := PlaceFor(t, s.route);
    assert k < |t| ==> Before(s, t[k]);
    RankWithOneMore(t, k, s);
  }

  lemma {:induction false} InsertAddsOne(t: seq<Slot>, s: Slot, x: Slot)
    ensures x in Insert(t, s) <==> x in t || x == s
  {
    var k := PlaceFor(t, s.route);
    assert t == t[..k] + t[k..];
  }

  lemma {:induction false} RemoveKeepsRank(t: seq<Slot>, name: string, added: nat)
    requires Ranked(t) && Stamped(t, added)
    ensures Ranked(Remove(t, name)) && Stamped(Remove(t, name), added)
  {
    var k, r := PlaceOf(t, name), Remove(t, name);
    if k < |t| {
      assert forall i :: 0 <= i < |r| ==> r[i] == t[if i < k then i else i + 1];
    }
  }

  /** Exactly the first route of that name goes. */
  lemma {:induction false} RemoveTakesOne(t: seq<Slot>, name: string, x: Slot)
    requires Ranked(t)
    ensures x in Remove(t, name) <==> x in t && (PlaceOf(t, name) < |t| ==> x != t[PlaceOf(t, name)])
  {
    var k := PlaceOf(t, name);
    if k < |t| {
      assert t == t[..k] + [t[k]] + t[k + 1..];
      if x in Remove(t, name) {
        var i :| 0 <= i < |t| && i != k && t[i] == x;
      }
    }
  }

  lemma RoutesWithout(t: seq<Slot>, name: string, k: nat)
    requires k < |t| && k == PlaceOf(t, name)
    ensures Routes(Remove(t, name)) == Routes(t)[..k] + Routes(t)[k + 1..]
  {
  }

  /** The reference for Match: in the table, matching, and before every other match. */
  ghost predicate IsBest(fold: char -> char, t: seq<Slot>, req: Request, s: Slot) {
    && s in t && Matches(fold, s.route, req)
    && (forall o :: o in t && Matches(fold, o.route, req) ==> o == s || Before(s, o))
  }

  /** What a request is owed, in terms of hosts, prefix lengths and order of addition alone: s is in the
      table and matches; if any match names a host, s does; among the matches alike in that none has a
      longer prefix; and among those with a prefix as long none was added earlier. */
  ghost predicate IsMostSpecific(fold: char -> char, t: seq<Slot>, req: Request, s: Slot) {
    && s in t && Matches(fold, s.route, req)
    && (forall o :: o in t && Matches(fold, o.route, req) ==>
          && (o.route.host != "" ==> s.route.host != "")
          && ((o.route.host == "" <==> s.route.host == "") ==> |o.route.pathPrefix| <= |s.route.pathPrefix|)
          && ((o.route.host == "" <==> s.route.host == "") && |o.route.pathPrefix| == |s.route.pathPrefix| && o != s ==>
                s.stamp < o.stamp))
  }

  lemma {:induction false} BestIsMostSpecific(fold: char -> char, t: seq<Slot>, req: Request, s: Slot)
    requires Ranked(t) && IsBest(fold, t, req, s)
    ensures IsMostSpecific(fold, t, req, s)
  {
    forall o | o in t && Matches(fold, o.route, req) && o != s ensures Before(s, o) {
    }
  }

  class Router {
    const fold: char -> char
    var routes: seq<Route>
    ghost var table: seq<Slot>  // the routes with their call numbers
    ghost var added: nat

    ghost predicate Valid()
      reads this
    {
      routes == Routes(table) && Ranked(table) && Stamped(table, added)
    }

    constructor (f: char -> char)
      ensures Valid() && table == [] && added == 0 && fold == f
    {
      fold := f;
      routes, table, added := [], [], 0;
    }

    method AddRoute(route: Route)
      requires Valid()
      modifies this
      ensures Valid() && added == old(added) + 1
      ensures table == Insert(old(table), Slot(route, old(added)))
    {
      var inserted := false;
      ghost var k := PlaceFor(table, route);
      var before := routes;
      for i := 0 to |before|
        invariant !inserted && routes == before == Routes(table) && table == old(table) && added == old(added)
        invariant i <= k
      {
        if IsMoreSpecific(route, before[i]) {
          routes := routes[..i] + [route] + routes[i..];
          inserted := true;
          break;
        }
      }
      if !inserted {
        routes := routes + [route];
      }
      InsertKeepsRank(table, Slot(route, added));
      table := Insert(table, Slot(route, added));
      added := added + 1;
      assert routes == Routes(table);
    }

    method RemoveRoute(name: string) returns (found: bool)
      requires Valid()
      modifies this
      ensures Valid() && added == old(added)
      ensures table == Remove(old(table), name)
      ensures found == (exists i :: 0 <= i < |old(table)| && old(table)[i].route.name == name)
    {
      RemoveKeepsRank(table, name, added);
      for i := 0 to |routes|
        invariant unchanged(this)
        invariant i <= PlaceOf(table, name)
      {
        if routes[i].name == name {
          assert table[i].route.name == name;
          RoutesWithout(table, name, i);
          routes := routes[..i] + routes[i + 1..];
          table := Remove(table, name);
          return true;
        }
      }
      return false;
    }

    /** The most specific matching route, the earliest added among equals; none only if none matches. */
    method Match(req: Request) returns (r: Option<Route>)
      requires Valid()
      ensures r.None? <==> forall i :: 0 <= i < |table| ==> !Matches(fold, table[i].route, req)
      ensures r.Some? ==> exists s: Slot :: s.route == r.value && IsMostSpecific(fold, table, req, s)
    {
      for i := 0 to |routes|
        invariant forall j :: 0 <= j < i ==> !Matches(fold, table[j].route, req)
      {
        var ok := CheckMatch(fold, routes[i], req);
        if ok {
          assert IsBest(fold, table, req, table[i]);
          BestIsMostSpecific(fold, table, req, table[i]);
          return Some(routes[i]);
        }
      }
      return None;
    }
  }

  // ---------------------------------------------------------------- whole runs

  function First(fold: char -> char, t: seq<Slot>, req: Request): Option<Slot> {
    if t == [] then None else if Matches(fold, t[0].route, req) then Some(t[0]) else First(fold, t[1..], req)
  }

  datatype Op = Add(route: Route) | Drop(name: string)

  datatype State = State(table: seq<Slot>, added: nat)

  function Do(s: State, op: Op): State {
    match op
    case Add(route) => State(Insert(s.table, Slot(route, s.added)), s.added + 1)
    case Drop(name) => s.(table := Remove(s.table, name))
  }

  function Run(ops: seq<Op>): State {
    if ops == [] then State([], 0) else Do(Run(ops[..|ops| - 1]), ops[|ops| - 1])
  }

  lemma {:induction false} RunIsRanked(ops: seq<Op>)
    ensures Ranked(Run(ops).table) && Stamped(Run(ops).table, Run(ops).added)
  {
    if ops == [] {
    } else {
      var s := Run(ops[..|ops| - 1]);
      RunIsRanked(ops[..|ops| - 1]);
      match ops[|ops| - 1]
      case Add(route) => InsertKeepsRank(s.table, Slot(route, s.added));
      case Drop(name) => RemoveKeepsRank(s.table, name, s.added);
    }
  }

  lemma {:induction false} FirstOfRanked(fold: char -> char, t: seq<Slot>, req: Request)
    requires Ranked(t)
    ensures First(fold, t, req).None? <==> forall s :: s in t ==> !Matches(fold, s.route, req)
    ensures First(fold, t, req).Some? ==> IsBest(fold, t, req, First(fold, t, req).value)
  {
    if t == [] || Matches(fold, t[0].route, req) {
    } else {
      FirstOfRanked(fold, t[1..], req);
      assert t == [t[0]] + t[1..];
    }
  }

  lemma {:induction false} BestIsUnique(fold: char -> char, t: seq<Slot>, req: Request, a: Slot, b: Slot)
    requires IsBest(fold, t, req, a) && IsBest(fold, t, req, b)
    ensures a == b
  {
    assert a == b || (Before(a, b) && Before(b, a));
  }

  /** After any sequence of additions and removals, a request goes to the best route of the table:
      first match is most specific match, earliest added among equals, and nothing exactly when
      nothing matches. */
  lemma {:induction false} MatchIsBest(fold: char -> char, ops: seq<Op>, req: Request)
    ensures var t := Run(ops).table;
      && (First(fold, t, req).None? <==> forall s :: s in t ==> !Matches(fold, s.route, req))
      && (forall s :: First(fold, t, req) == Some(s) <==> IsBest(fold, t, req, s))
      && (forall s :: First(fold, t, req) == Some(s) <==> IsMostSpecific(fold, t, req, s))
  {
    var t := Run(ops).table;
    RunIsRanked(ops);
    FirstOfRanked(fold, t, req);
    if First(fold, t, req).Some? {
      BestIsMostSpecific(fold, t, req, First(fold, t, req).value);
    }
    forall s ensures First(fold, t, req) == Some(s) <==> IsBest(fold, t, req, s) {
      if IsBest(fold, t, req, s) {
        BestIsUnique(fold, t, req, s, First(fold, t, req).value);
      }
    }
    forall s ensures First(fold, t, req) == Some(s) <==> IsMostSpecific(fold, t, req, s) {
      if IsMostSpecific(fold, t, req, s) {
        assert First(fold, t, req).value in t;
      }
    }
  }
}
