/**
  The live router and the manager that keeps it in step with the apps table.

  `Sync` patches the router entry by entry while requests are being routed. The result
  is the one that a router built from scratch would give, and every state in between
  shows each host either its old or its new route.
 */
module Routes {
  import opened Wrappers
  import opened Text

  // --- apps ---

  datatype Url = Url(scheme: string, host: string)

  /** A backend as stored, with what url.Parse makes of it. */
  datatype Backend = Backend(text: string, url: Option<Url>)

  datatype Settings = Settings(subdomain: string, backend: Backend, preserveHost: bool, oidcGate: bool, timeoutSec: int)

  /** The settings column: empty, not decodable, or decoded. */
  datatype Stored = Blank | Broken | Decoded(settings: Settings)

  const NO_SETTINGS := Settings("", Backend("", None), false, false, 0)

  /** An enabled row of the apps table. */
  datatype App = App(name: string, stored: Stored)

  datatype Route = Route(name: string, host: string, settings: Settings)

  datatype Reason =
    | DecodeFailed | SubdomainEmpty | BackendEmpty
    | HostReserved | HostTaken(owner: string) | BackendInvalid | NoGate

  datatype Problem = Problem(app: string, reason: Reason)

  datatype Handler =
    | Fixed(id: nat)
    | Proxy(backend: Url, preserveHost: bool, timeoutSec: Option<int>)
    | Gated(inner: Handler)

  /** What the outcome of a sync depends on besides the rows. */
  datatype Env = Env(reserved: set<string>, gate: bool)

  datatype Resolution = Resolved(route: Route) | Rejected(reason: Reason)

  function Resolve(app: App, baseHost: string): Resolution {
    if app.stored.Broken? then Rejected(DecodeFailed)
    else
      var s := if app.stored.Blank? then NO_SETTINGS else app.stored.settings;
      if s.subdomain == "" then Rejected(SubdomainEmpty)
      else if s.backend.text == "" then Rejected(BackendEmpty)
      else Resolved(Route(app.name, ToLower(s.subdomain + "." + baseHost), s))
  }

  datatype Built = Ready(handler: Handler) | Unready(reason: Reason)

  function ParseBackend(b: Backend): Option<Url> {
    if b.text == "" || b.url.None? || b.url.value.scheme == "" || b.url.value.host == "" then None else b.url
  }

  function HandlerFor(r: Route, gate: bool): Built {
    var u := ParseBackend(r.settings.backend);
    if u.None? then Unready(BackendInvalid)
    else
      var timeout := if r.settings.timeoutSec > 0 then Some(r.settings.timeoutSec) else None;
      var h := Proxy(u.value, r.settings.preserveHost, timeout);
      if !r.settings.oidcGate then Ready(h) else if gate then Ready(Gated(h)) else Unready(NoGate)
  }

  // --- specification: who gets a host ---

  predicate Wants(r: Route, env: Env, host: string) {
    r.host == host && host !in env.reserved && HandlerFor(r, env.gate).Ready?
  }

  /** The first route that wants the host. */
  function Winner(routes: seq<Route>, env: Env, host: string): Option<Route> {
    if routes == [] then None
    else
      var before := Winner(routes[..|routes| - 1], env, host);
      var last := routes[|routes| - 1];
      if before.Some? then before else if Wants(last, env, host) then Some(last) else None
  }

  function RoutesOf(apps: seq<App>, baseHost: string): seq<Route> {
    if apps == [] then []
    else
      var r := Resolve(apps[|apps| - 1], baseHost);
      RoutesOf(apps[..|apps| - 1], baseHost) + if r.Resolved? then [r.route] else []
  }

  function RejectedOf(apps: seq<App>, baseHost: string): seq<Problem> {
    if apps == [] then []
    else
      var last := apps[|apps| - 1];
      var r := Resolve(last, baseHost);
      RejectedOf(apps[..|apps| - 1], baseHost) + if r.Rejected? then [Problem(last.name, r.reason)] else []
  }

  datatype Entry = Entry(host: string, handler: Handler)

  /** Why a route is not registered although it resolved, if it is not. */
  function Refusal(before: seq<Route>, r: Route, env: Env): Option<Reason> {
    if r.host in env.reserved then Some(HostReserved)
    else if Winner(before, env, r.host).Some? then Some(HostTaken(Winner(before, env, r.host).value.name))
    else if HandlerFor(r, env.gate).Unready? then Some(HandlerFor(r, env.gate).reason)
    else None
  }

  function RefusedOf(routes: seq<Route>, env: Env): seq<Problem> {
    if routes == [] then []
    else
      var front, last := routes[..|routes| - 1], routes[|routes| - 1];
      var refusal := Refusal(front, last, env);
      RefusedOf(front, env) + if refusal.Some? then [Problem(last.name, refusal.value)] else []
  }

  function Desired(routes: seq<Route>, env: Env): map<string, Entry> {
    if routes == [] then map[]
    else
      var front, last := routes[..|routes| - 1], routes[|routes| - 1];
      if Refusal(front, last, env).None? && HandlerFor(last, env.gate).Ready?
      then Desired(front, env)[last.name := Entry(last.host, HandlerFor(last, env.gate).handler)]
      else Desired(front, env)
  }

  // --- the router ---

  function Look(routes: map<string, Handler>, host: string): Option<Handler> {
    if host in routes then Some(routes[host]) else None
  }

  function LastIndexOf(s: string, c: char): (i: int)
    ensures -1 <= i < |s| && (i >= 0 ==> s[i] == c) && forall j | i < j < |s| :: s[j] != c
  {
    if s == "" then -1 else if s[|s| - 1] == c then |s| - 1 else LastIndexOf(s[..|s| - 1], c)
  }

  /** The host without its port; an address in brackets keeps its colons. */
  function StripPort(host: string): string {
    var i := LastIndexOf(host, ':');
    if i == -1 then host
    else if !HasPrefix(host, "[") then host[..i]
    else
      var j := LastIndexOf(host, ']');
      if j != -1 && i > j then host[..i] else host
  }

  class Server {
    var routes: map<string, Handler>
    var fallback: Handler
    /** Every state of the routes that a request may have seen. */
    ghost var seen: seq<map<string, Handler>>

    constructor (fallback: Handler)
      ensures routes == map[] && this.fallback == fallback && seen == [map[]]
    {
      routes := map[];
      this.fallback := fallback;
      seen := [map[]];
    }

    method AddRoute(host: string, handler: Handler)
      modifies this`routes, this`seen
      ensures routes == old(routes)[ToLower(host) := handler]
      ensures seen == old(seen) + [routes]
    {
      routes := routes[ToLower(host) := handler];
      seen := seen + [routes];
    }

    method RemoveRoute(host: string) returns (ok: bool)
      modifies this`routes, this`seen
      ensures ok <==> ToLower(host) in old(routes)
      ensures routes == old(routes) - {ToLower(host)}
      ensures seen == old(seen) + [routes]
    {
      ok := ToLower(host) in routes;
      routes := routes - {ToLower(host)};
      seen := seen + [routes];
    }

    /** The handler that serves a request for this Host header. */
    method Dispatch(host: string) returns (h: Handler)
      ensures Look(routes, ToLower(StripPort(host))) == Some(h) || (ToLower(StripPort(host)) !in routes && h == fallback)
    {
      var key := ToLower(StripPort(host));
      if key in routes { h := routes[key]; } else { h := fallback; }
    }
  }

  // --- the manager ---

  /** Every valid row becomes a route and every other one a problem. */
  method LoadEnabled(apps: seq<App>, baseHost: string) returns (routes: seq<Route>, problems: seq<Problem>)
    ensures routes == RoutesOf(apps, baseHost) && problems == RejectedOf(apps, baseHost)
  {
    routes, problems := [], [];
    for i := 0 to |apps|
      invariant routes == RoutesOf(apps[..i], baseHost) && problems == RejectedOf(apps[..i], baseHost)
    {
      assert apps[..i + 1][..i] == apps[..i];
      var name := apps[i].name;
      if apps[i].stored.Broken? {
        problems := problems + [Problem(name, DecodeFailed)];
        continue;
      }
      var s := if apps[i].stored.Decoded? then apps[i].stored.settings else NO_SETTINGS;
      if s.subdomain == "" {
        problems := problems + [Problem(name, SubdomainEmpty)];
        continue;
      }
      if s.backend.text == "" {
        problems := problems + [Problem(name, BackendEmpty)];
        continue;
      }
      routes := routes + [Route(name, ToLower(s.subdomain + "." + baseHost), s)];
    }
    assert apps[..|apps|] == apps;
  }

  datatype SyncResult = QueryFailed | Synced(problems: seq<Problem>)

  function NewRoute(routes: seq<Route>, env: Env, host: string): Option<Handler> {
    var w := Winner(routes, env, host);
    if w.None? then None
    else match HandlerFor(w.value, env.gate) case Ready(h) => Some(h) case Unready(_) => None
  }

  /** A host's route after a sync: that of the winner, none if it lost its app, or else what it was. */
  function Target(before: map<string, Handler>, managed: set<string>, routes: seq<Route>, env: Env, host: string): Option<Handler> {
    if Winner(routes, env, host).Some? then NewRoute(routes, env, host)
    else if host in managed then None
    else Look(before, host)
  }

  ghost predicate Reconciled(
      before: map<string, Handler>, managed: set<string>, after: map<string, Handler>, routes: seq<Route>, env: Env)
  {
    forall host :: Look(after, host) == Target(before, managed, routes, env, host)
  }

  /** Each host shows either its old or its new route. */
  ghost predicate Between(
      state: map<string, Handler>, before: map<string, Handler>, managed: set<string>, routes: seq<Route>, env: Env)
  {
    forall host :: Look(state, host) == Look(before, host) || Look(state, host) == Target(before, managed, routes, env, host)
  }

  lemma WinnerAppends(routes: seq<Route>, last: Route, env: Env, host: string)
    ensures Winner(routes + [last], env, host)
      == if Winner(routes, env, host).Some? then Winner(routes, env, host)
         else if Wants(last, env, host) then Some(last) else None
  {
    assert (routes + [last])[..|routes|] == routes;
  }

  lemma {:induction false} WinnerWants(routes: seq<Route>, env: Env, host: string)
    ensures var w := Winner(routes, env, host); w.Some? ==> w.value in routes && Wants(w.value, env, host)
  {
    if routes != [] {
      hide Wants;
      WinnerWants(routes[..|routes| - 1], env, host);
    }
  }

  predicate DistinctNames(routes: seq<Route>) {
    forall i, j | 0 <= i < j < |routes| :: routes[i].name != routes[j].name
  }

  /** The routes to register are exactly the winners, one per host. */
  ghost predicate WinnersOnly(desired: map<string, Entry>, routes: seq<Route>, env: Env) {
    && (forall name | name in desired ::
          var w := Winner(routes, env, desired[name].host);
          w.Some? && w.value.name == name && HandlerFor(w.value, env.gate) == Ready(desired[name].handler))
    && (forall host | Winner(routes, env, host).Some? ::
          var w := Winner(routes, env, host).value;
          w.name in desired && desired[w.name].host == host)
  }

  lemma {:induction false} DesiredWins(routes: seq<Route>, env: Env)
    requires DistinctNames(routes)
    ensures WinnersOnly(Desired(routes, env), routes, env)
  {
    if routes != [] {
      var front, last := routes[..|routes| - 1], routes[|routes| - 1];
      assert routes == front + [last];
      DesiredWins(front, env);
      forall host
        ensures Winner(routes, env, host) == if Winner(front, env, host).Some? then Winner(front, env, host)
                                             else if Wants(last, env, host) then Some(last) else None
        ensures Winner(front, env, host).Some? ==> Winner(front, env, host).value.name != last.name
      {
        WinnerAppends(front, last, env, host);
        WinnerWants(front, env, host);
      }
      hide DistinctNames;
      OneMoreWinner(Desired(front, env), front, last, routes, env);
    }
  }

  /** A further route is registered exactly when it wins its host. */
  lemma OneMoreWinner(desired: map<string, Entry>, front: seq<Route>, last: Route, routes: seq<Route>, env: Env)
    requires WinnersOnly(desired, front, env)
    requires forall host ::
      Winner(routes, env, host) == (if Winner(front, env, host).Some? then Winner(front, env, host)
                                    else if Wants(last, env, host) then Some(last) else None)
    requires forall host | Winner(front, env, host).Some? :: Winner(front, env, host).value.name != last.name
    ensures Refusal(front, last, env).None? ==>
      && HandlerFor(last, env.gate).Ready?
      && WinnersOnly(desired[last.name := Entry(last.host, HandlerFor(last, env.gate).handler)], routes, env)
    ensures Refusal(front, last, env).Some? ==> WinnersOnly(desired, routes, env)
  {
    hide Winner, HandlerFor;
  }

  // --- the states in between ---

  /** The router while stale hosts are dropped. */
  ghost predicate Dropping(
      state: map<string, Handler>, before: map<string, Handler>, dropped: set<string>)
  {
    forall host :: Look(state, host) == if host in dropped then None else Look(before, host)
  }

  /** The router while winners are added; those in `rest` are still to come. */
  ghost predicate Adding(
      state: map<string, Handler>, before: map<string, Handler>, managed: set<string>, routes: seq<Route>, env: Env, rest: set<string>)
  {
    forall host :: Look(state, host) ==
      if Winner(routes, env, host).Some? && Winner(routes, env, host).value.name in rest then Look(before, host)
      else Target(before, managed, routes, env, host)
  }

  /** A router built from scratch: the fixed routes, and each winner on its host. */
  ghost predicate Rebuilt(after: map<string, Handler>, fixed: map<string, Handler>, routes: seq<Route>, env: Env) {
    forall host :: Look(after, host) == if Winner(routes, env, host).Some? then NewRoute(routes, env, host) else Look(fixed, host)
  }

  ghost predicate FixedShown(seen: seq<map<string, Handler>>, from: nat, fixed: map<string, Handler>) {
    && from <= |seen|
    && forall i, host | from <= i < |seen| && host in fixed :: Look(seen[i], host) == Look(fixed, host)
  }

  /** The trace has only grown, by states that show each host its old or its new route. */
  ghost predicate Observed(
      seen0: seq<map<string, Handler>>, seen: seq<map<string, Handler>>,
      before: map<string, Handler>, managed: set<string>, routes: seq<Route>, env: Env)
  {
    && |seen0| <= |seen| && seen[..|seen0|] == seen0
    && forall i | |seen0| <= i < |seen| :: Between(seen[i], before, managed, routes, env)
  }

  lemma ObservedMore(
      seen0: seq<map<string, Handler>>, seen: seq<map<string, Handler>>, state: map<string, Handler>,
      before: map<string, Handler>, managed: set<string>, routes: seq<Route>, env: Env)
    requires Observed(seen0, seen, before, managed, routes, env) && Between(state, before, managed, routes, env)
    ensures Observed(seen0, seen + [state], before, managed, routes, env)
  {
    hide Between;
    assert (seen + [state])[..|seen0|] == seen[..|seen0|];
  }

  lemma DroppingBetween(
      state: map<string, Handler>, before: map<string, Handler>, dropped: set<string>,
      managed: set<string>, routes: seq<Route>, env: Env)
    requires Dropping(state, before, dropped)
    requires forall host | host in dropped :: host in managed && Winner(routes, env, host).None?
    ensures Between(state, before, managed, routes, env)
  {
    hide Winner, NewRoute;
  }

  /** Once every stale host is dropped, all that is missing is the winners. */
  lemma DroppedAll(
      state: map<string, Handler>, before: map<string, Handler>, dropped: set<string>, managed: set<string>,
      routes: seq<Route>, env: Env, rest: set<string>)
    requires Dropping(state, before, dropped)
    requires forall host :: host in dropped <==> host in managed && Winner(routes, env, host).None?
    requires forall host | Winner(routes, env, host).Some? :: Winner(routes, env, host).value.name in rest
    ensures Adding(state, before, managed, routes, env, rest)
  {
    hide Winner, NewRoute;
  }

  lemma AddingBetween(
      state: map<string, Handler>, before: map<string, Handler>, managed: set<string>, routes: seq<Route>, env: Env, rest: set<string>)
    requires Adding(state, before, managed, routes, env, rest)
    ensures Between(state, before, managed, routes, env)
  {
    hide Winner, Target;
  }

  lemma AddedOne(
      state: map<string, Handler>, before: map<string, Handler>, managed: set<string>, routes: seq<Route>, env: Env,
      rest: set<string>, desired: map<string, Entry>, name: string)
    requires Adding(state, before, managed, routes, env, rest) && name in rest
    requires WinnersOnly(desired, routes, env) && name in desired
    ensures Adding(state[desired[name].host := desired[name].handler], before, managed, routes, env, rest - {name})
  {
    hide Winner, HandlerFor;
    var host := desired[name].host;
    assert NewRoute(routes, env, host) == Some(desired[name].handler);
    hide NewRoute;
    forall h
      ensures Look(state[host := desired[name].handler], h) ==
        if Winner(routes, env, h).Some? && Winner(routes, env, h).value.name in rest - {name} then Look(before, h)
        else Target(before, managed, routes, env, h)
    {
      assert h != host && Winner(routes, env, h).Some? ==> Winner(routes, env, h).value.name != name;
    }
  }

  class RouteManager {
    const server: Server
    const baseHost: string
    const gate: bool
    var appHosts: map<string, string>
    var reserved: set<string>
    /** The routes registered before the manager was made. */
    ghost const fixed: map<string, Handler>
    /** How many states the router had had by then. */
    ghost const born: nat

    ghost predicate Valid()
      reads this
    {
      forall name | name in appHosts :: ToLower(appHosts[name]) == appHosts[name]
    }

    function Managed(): set<string>
      reads this
    {
      set name | name in appHosts :: appHosts[name]
    }

    /**
      The fixed hosts are reserved, no reserved host is managed, the manager has touched
      nothing else, and no request has ever seen a fixed host with another route.
     */
    ghost predicate Sealed()
      reads this, server
    {
      && fixed.Keys <= reserved && Managed() !! reserved
      && (forall host | host !in Managed() :: Look(server.routes, host) == Look(fixed, host))
      && FixedShown(server.seen, born, fixed)
    }

    constructor (server: Server, baseHost: string, gate: bool)
      ensures this.server == server && this.baseHost == baseHost && this.gate == gate
      ensures appHosts == map[] && reserved == {} && fixed == server.routes && born == |server.seen| && Valid()
    {
      this.server := server;
      this.baseHost := baseHost;
      this.gate := gate;
      appHosts := map[];
      reserved := {};
      fixed := server.routes;
      born := |server.seen|;
    }

    method Reserve(hosts: seq<string>)
      requires Valid()
      modifies this`reserved
      ensures Valid()
      ensures forall h :: h in reserved <==> h in old(reserved) || exists i | 0 <= i < |hosts| :: h == ToLower(hosts[i])
      ensures appHosts == map[] && server.routes == fixed && born == |server.seen| && fixed.Keys <= reserved ==> Sealed()
      ensures old(Sealed()) && (forall i | 0 <= i < |hosts| :: ToLower(hosts[i]) !in Managed()) ==> Sealed()
    {
      for i := 0 to |hosts|
        invariant forall h :: h in reserved <==> h in old(reserved) || exists j | 0 <= j < i :: h == ToLower(hosts[j])
      {
        reserved := reserved + {ToLower(hosts[i])};
      }
    }

    /** The first loop of a sync: which routes to register, and which hosts they claim. */
    method Claim(routes: seq<Route>, rejected: seq<Problem>)
      returns (desired: map<string, Entry>, claimed: map<string, string>, problems: seq<Problem>)
      ensures desired == Desired(routes, Env(reserved, gate))
      ensures forall host :: host in claimed <==> Winner(routes, Env(reserved, gate), host).Some?
      ensures problems == rejected + RefusedOf(routes, Env(reserved, gate))
    {
      ghost var env := Env(reserved, gate);
      desired, claimed, problems := map[], map[], rejected;
      for i := 0 to |routes|
        invariant desired == Desired(routes[..i], env)
        invariant forall host :: host in claimed <==> Winner(routes[..i], env, host).Some?
        invariant forall host | host in claimed :: claimed[host] == Winner(routes[..i], env, host).value.name
        invariant problems == rejected + RefusedOf(routes[..i], env)
      {
        var r := routes[i];
        assert routes[..i + 1] == routes[..i] + [r] && routes[..i + 1][..i] == routes[..i];
        forall host
          ensures Winner(routes[..i + 1], env, host)
            == if Winner(routes[..i], env, host).Some? then Winner(routes[..i], env, host)
               else if Wants(r, env, host) then Some(r) else None
        {
          WinnerAppends(routes[..i], r, env, host);
        }
        hide Winner, HandlerFor;
        if r.host in reserved {
          problems := problems + [Problem(r.name, HostReserved)];
          continue;
        }
        if r.host in claimed {
          problems := problems + [Problem(r.name, HostTaken(claimed[r.host]))];
          continue;
        }
        var built := HandlerFor(r, gate);
        if built.Unready? {
          problems := problems + [Problem(r.name, built.reason)];
          continue;
        }
        claimed := claimed[r.host := r.name];
        desired := desired[r.name := Entry(r.host, built.handler)];
      }
      assert routes[..|routes|] == routes;
    }

    /** The second loop: hosts that no app claims any more, in any order. */
    method DropStale(claimed: map<string, string>, ghost routes: seq<Route>) returns (ghost dropped: set<string>)
      requires Valid()
      requires forall host :: host in claimed <==> Winner(routes, Env(reserved, gate), host).Some?
      modifies server`routes, server`seen
      ensures Dropping(server.routes, old(server.routes), dropped)
      ensures forall host :: host in dropped <==> host in Managed() && host !in claimed
      ensures Observed(old(server.seen), server.seen, old(server.routes), Managed(), routes, Env(reserved, gate))
    {
      ghost var before, seen0, env := server.routes, server.seen, Env(reserved, gate);
      var rest := appHosts.Keys;
      dropped := {};
      hide Winner, NewRoute, Observed, Between;
      assert Observed(seen0, seen0, before, Managed(), routes, env) by { ObservedNothing(seen0, before, Managed(), routes, env); }
      while rest != {}
        invariant rest <= appHosts.Keys
        invariant forall name | name in appHosts && name !in rest && appHosts[name] !in claimed :: appHosts[name] in dropped
        invariant forall host | host in dropped :: host in Managed() && host !in claimed
        invariant Dropping(server.routes, before, dropped)
        invariant Observed(seen0, server.seen, before, Managed(), routes, env)
        decreases |rest|
      {
        var name :| name in rest;
        rest := rest - {name};
        var oldHost := appHosts[name];
        if oldHost !in claimed {
          ghost var seen := server.seen;
          var removed := server.RemoveRoute(oldHost);
          dropped := dropped + {oldHost};
          DroppingBetween(server.routes, before, dropped, Managed(), routes, env);
          ObservedMore(seen0, seen, server.routes, before, Managed(), routes, env);
        }
      }
    }

    /** The third loop: the new routes, in any order. */
    method AddDesired(desired: map<string, Entry>, ghost routes: seq<Route>, ghost before: map<string, Handler>)
      returns (hosts: map<string, string>)
      requires WinnersOnly(desired, routes, Env(reserved, gate))
      requires forall name | name in desired :: ToLower(desired[name].host) == desired[name].host
      requires Adding(server.routes, before, Managed(), routes, Env(reserved, gate), desired.Keys)
      modifies server`routes, server`seen
      ensures Reconciled(before, Managed(), server.routes, routes, Env(reserved, gate))
      ensures hosts.Keys == desired.Keys && forall name | name in desired :: hosts[name] == desired[name].host
      ensures Observed(old(server.seen), server.seen, before, Managed(), routes, Env(reserved, gate))
    {
      ghost var seen0, env := server.seen, Env(reserved, gate);
      hosts := map[];
      var rest := desired.Keys;
      assert Observed(seen0, seen0, before, Managed(), routes, env) by { ObservedNothing(seen0, before, Managed(), routes, env); }
      hide Winner, HandlerFor, WinnersOnly, Observed, Between, Adding;
      while rest != {}
        invariant rest <= desired.Keys
        invariant hosts.Keys == desired.Keys - rest
        invariant forall name | name in hosts :: hosts[name] == desired[name].host
        invariant Adding(server.routes, before, Managed(), routes, env, rest)
        invariant Observed(seen0, server.seen, before, Managed(), routes, env)
        decreases |rest|
      {
        var name :| name in rest;
        ghost var seen := server.seen;
        var e := desired[name];
        AddedOne(server.routes, before, Managed(), routes, env, rest, desired, name);
        rest := rest - {name};
        server.AddRoute(e.host, e.handler);
        hosts := hosts[name := e.host];
        AddingBetween(server.routes, before, Managed(), routes, env, rest);
        ObservedMore(seen0, seen, server.routes, before, Managed(), routes, env);
      }
      AddedAll(server.routes, before, Managed(), routes, env);
    }

    /**
      Brings the router in line with the rows the query returned, which the database
      orders by name. Nothing happens when the query fails.
     */
    method Sync(query: Option<seq<App>>) returns (result: SyncResult)
      requires Valid()
      requires query.Some? ==> NamesDistinct(query.value)
      modifies this`appHosts, server`routes, server`seen
      ensures Valid()
      ensures query.None? ==>
        result == QueryFailed && appHosts == old(appHosts) && server.routes == old(server.routes) && server.seen == old(server.seen)
      ensures query.Some? ==>
        var routes, env := RoutesOf(query.value, baseHost), Env(reserved, gate);
        && result == Synced(RejectedOf(query.value, baseHost) + RefusedOf(routes, env))
        && Reconciled(old(server.routes), old(Managed()), server.routes, routes, env)
        && Observed(old(server.seen), server.seen, old(server.routes), old(Managed()), routes, env)
        && appHosts.Keys == Desired(routes, env).Keys
        && (forall name | name in appHosts :: appHosts[name] == Desired(routes, env)[name].host)
        && (forall host :: host in Managed() <==> Winner(routes, env, host).Some?)
      ensures old(Sealed()) ==> Sealed()
      ensures query.Some? && old(Sealed()) ==> Rebuilt(server.routes, fixed, RoutesOf(query.value, baseHost), Env(reserved, gate))
    {
      if query.None? { return QueryFailed; }
      ghost var before, seen0, managed, env := server.routes, server.seen, Managed(), Env(reserved, gate);
      var routes, problems := LoadEnabled(query.value, baseHost);
      var desired, claimed;
      desired, claimed, problems := Claim(routes, problems);
      RouteNames(query.value, baseHost);
      RouteHostsLower(query.value, baseHost);
      DesiredWins(routes, env);
      DesiredHosts(desired, routes, env);
      hide Winner, HandlerFor, Observed, Between, Adding, Dropping, Reconciled, Target, Desired, RejectedOf, RefusedOf, RoutesOf;
      ghost var dropped := DropStale(claimed, routes);
      DroppedAll(server.routes, before, dropped, managed, routes, env, desired.Keys);
      ghost var seen := server.seen;
      var hosts := AddDesired(desired, routes, before);
      ObservedBoth(seen0, seen, server.seen, before, managed, routes, env);
      appHosts := hosts;
      StaysSealed(before, managed, server.routes, Managed(), fixed, routes, env);
      if old(Sealed()) { FixedStayShown(seen0, server.seen, born, fixed, before, managed, routes, env); }
      hide FixedShown, Rebuilt;
      return Synced(problems);
    }
  }

  lemma ObservedNothing(
      seen0: seq<map<string, Handler>>, before: map<string, Handler>, managed: set<string>, routes: seq<Route>, env: Env)
    ensures Observed(seen0, seen0, before, managed, routes, env)
  {}

  lemma ObservedBoth(
      seen0: seq<map<string, Handler>>, seen1: seq<map<string, Handler>>, seen2: seq<map<string, Handler>>,
      before: map<string, Handler>, managed: set<string>, routes: seq<Route>, env: Env)
    requires Observed(seen0, seen1, before, managed, routes, env) && Observed(seen1, seen2, before, managed, routes, env)
    ensures Observed(seen0, seen2, before, managed, routes, env)
  {
    hide Between;
    assert seen2[..|seen0|] == seen2[..|seen1|][..|seen0|];
    forall i | |seen0| <= i < |seen2|
      ensures Between(seen2[i], before, managed, routes, env)
    {
      if i < |seen1| { assert seen2[i] == seen2[..|seen1|][i]; }
    }
  }

  lemma AddedAll(
      state: map<string, Handler>, before: map<string, Handler>, managed: set<string>, routes: seq<Route>, env: Env)
    requires Adding(state, before, managed, routes, env, {})
    ensures Reconciled(before, managed, state, routes, env)
  {
    hide Winner, Target;
  }

  predicate NamesDistinct(apps: seq<App>) {
    forall i, j | 0 <= i < j < |apps| :: apps[i].name != apps[j].name
  }

  lemma {:induction false} RouteNames(apps: seq<App>, baseHost: string)
    requires NamesDistinct(apps)
    ensures DistinctNames(RoutesOf(apps, baseHost))
    ensures forall r | r in RoutesOf(apps, baseHost) :: exists i | 0 <= i < |apps| :: r.name == apps[i].name
  {
    if apps != [] {
      var k := |apps| - 1;
      RouteNames(apps[..k], baseHost);
      forall r | r in RoutesOf(apps, baseHost)
        ensures exists i | 0 <= i < |apps| :: r.name == apps[i].name
      {
        if r in RoutesOf(apps[..k], baseHost) {
          var i :| 0 <= i < k && r.name == apps[..k][i].name;
          assert r.name == apps[i].name;
        } else {
          assert r.name == apps[k].name;
        }
      }
    }
  }

  lemma {:induction false} RouteHostsLower(apps: seq<App>, baseHost: string)
    ensures forall r | r in RoutesOf(apps, baseHost) :: ToLower(r.host) == r.host
  {
    if apps != [] {
      RouteHostsLower(apps[..|apps| - 1], baseHost);
      var r := Resolve(apps[|apps| - 1], baseHost);
      var s := if apps[|apps| - 1].stored.Decoded? then apps[|apps| - 1].stored.settings else NO_SETTINGS;
      ToLowerTwice(s.subdomain + "." + baseHost);
    }
  }

  lemma DesiredHosts(desired: map<string, Entry>, routes: seq<Route>, env: Env)
    requires WinnersOnly(desired, routes, env) && forall r | r in routes :: ToLower(r.host) == r.host
    ensures forall name | name in desired :: ToLower(desired[name].host) == desired[name].host
    ensures forall host | Winner(routes, env, host).Some? :: Winner(routes, env, host).value.name in desired
  {
    forall name | name in desired
      ensures ToLower(desired[name].host) == desired[name].host
    {
      WinnerWants(routes, env, desired[name].host);
    }
  }

  /** Fixed hosts are reserved, reserved hosts are not managed, and all other routes are the fixed ones. */
  ghost predicate OnlyManagedDiffer(before: map<string, Handler>, managed: set<string>, fixed: map<string, Handler>, env: Env) {
    && fixed.Keys <= env.reserved && managed !! env.reserved
    && forall host | host !in managed :: Look(before, host) == Look(fixed, host)
  }

  lemma StaysSealed(
      before: map<string, Handler>, managed: set<string>, after: map<string, Handler>, managed': set<string>,
      fixed: map<string, Handler>, routes: seq<Route>, env: Env)
    requires Reconciled(before, managed, after, routes, env)
    requires forall host :: host in managed' <==> Winner(routes, env, host).Some?
    ensures managed' !! env.reserved
    ensures OnlyManagedDiffer(before, managed, fixed, env) ==> Rebuilt(after, fixed, routes, env)
    ensures OnlyManagedDiffer(before, managed, fixed, env) ==>
      forall host | host !in managed' :: Look(after, host) == Look(fixed, host)
  {
    forall host | Winner(routes, env, host).Some?
      ensures host !in env.reserved
    {
      WinnerWants(routes, env, host);
    }
    hide Winner, NewRoute;
  }

  /** A reserved host that no app manages keeps its route in every state in between. */
  lemma ReservedKept(
      state: map<string, Handler>, before: map<string, Handler>, managed: set<string>, routes: seq<Route>, env: Env, host: string)
    requires Between(state, before, managed, routes, env) && host in env.reserved && host !in managed
    ensures Look(state, host) == Look(before, host)
  {
    WinnerWants(routes, env, host);
    hide Winner;
  }

  lemma FixedStayShown(
      seen0: seq<map<string, Handler>>, seen: seq<map<string, Handler>>, from: nat, fixed: map<string, Handler>,
      before: map<string, Handler>, managed: set<string>, routes: seq<Route>, env: Env)
    requires Observed(seen0, seen, before, managed, routes, env) && FixedShown(seen0, from, fixed)
    requires fixed.Keys <= env.reserved && managed !! env.reserved
    requires forall host | host !in managed :: Look(before, host) == Look(fixed, host)
    ensures FixedShown(seen, from, fixed)
  {
    hide Between, Look;
    forall i, host | from <= i < |seen| && host in fixed
      ensures Look(seen[i], host) == Look(fixed, host)
    {
      if i < |seen0| {
        assert seen[i] == seen[..|seen0|][i];
      } else {
        ReservedKept(seen[i], before, managed, routes, env, host);
      }
    }
  }
}
