/**
  What a sync means: who gets which host, what requests can observe meanwhile, and
  that every enabled app is either routed or reported.
 */
module Reconcile {
  import opened Wrappers
  import opened Text
  import opened Routes
  import Dispatch

  // --- the apps table and the query over it ---

  datatype Row = Row(enabled: bool, stored: Stored)

  class AppTable {
    var rows: map<string, Row>

    constructor ()
      ensures rows == map[]
    {
      rows := map[];
    }

    /** Replaces the settings of an app and enables it. */
    method SaveSettings(name: string, settings: Settings)
      modifies this
      ensures rows == old(rows)[name := Row(true, Decoded(settings))]
    {
      rows := rows[name := Row(true, Decoded(settings))];
    }
  }

  /** The enabled rows, ordered by name. */
  ghost predicate QueryResult(rows: map<string, Row>, apps: seq<App>) {
    && (forall i, j | 0 <= i < j < |apps| :: apps[i].name != apps[j].name && AtMost(apps[i].name, apps[j].name))
    && (forall i | 0 <= i < |apps| :: apps[i].name in rows && rows[apps[i].name] == Row(true, apps[i].stored))
    && (forall name | name in rows && rows[name].enabled :: exists i | 0 <= i < |apps| :: apps[i].name == name)
  }

  // --- who gets a host ---

  /** The enabled app is valid, its host is `host`, which is not reserved, and its handler can be built. */
  predicate Eligible(rows: map<string, Row>, name: string, baseHost: string, env: Env, host: string) {
    && name in rows && rows[name].enabled
    && var r := Resolve(App(name, rows[name].stored), baseHost);
       r.Resolved? && Wants(r.route, env, host)
  }

  lemma RoutesAppend(front: seq<App>, last: App, baseHost: string)
    ensures RoutesOf(front + [last], baseHost)
      == if Resolve(last, baseHost).Resolved? then RoutesOf(front, baseHost) + [Resolve(last, baseHost).route] else RoutesOf(front, baseHost)
  {
    assert (front + [last])[..|front|] == front;
  }

  lemma LastWinner(front: seq<App>, last: App, baseHost: string, env: Env, host: string)
    ensures var w, r := Winner(RoutesOf(front, baseHost), env, host), Resolve(last, baseHost);
      Winner(RoutesOf(front + [last], baseHost), env, host)
        == if w.Some? then w else if r.Resolved? && Wants(r.route, env, host) then Some(r.route) else None
  {
    RoutesAppend(front, last, baseHost);
    var r := Resolve(last, baseHost);
    if r.Resolved? { WinnerAppends(RoutesOf(front, baseHost), r.route, env, host); }
    hide Winner, RoutesOf, Resolve, Wants;
  }

  /** The row the winning route comes from. */
  lemma {:induction false} WinnerSource(apps: seq<App>, baseHost: string, env: Env, host: string) returns (i: nat)
    requires Winner(RoutesOf(apps, baseHost), env, host).Some?
    ensures var w := Winner(RoutesOf(apps, baseHost), env, host).value;
      i < |apps| && Resolve(apps[i], baseHost) == Resolved(w) && Wants(w, env, host)
  {
    assert apps != [];
    hide Winner, RoutesOf, Resolve, Wants;
    var front, last := apps[..|apps| - 1], apps[|apps| - 1];
    assert apps == front + [last];
    LastWinner(front, last, baseHost, env, host);
    if Winner(RoutesOf(front, baseHost), env, host).Some? {
      i := WinnerSource(front, baseHost, env, host);
    } else {
      i := |front|;
    }
  }

  lemma {:induction false} WinnerComesFirst(apps: seq<App>, baseHost: string, env: Env, host: string, i: nat)
    requires forall j, k | 0 <= j < k < |apps| :: AtMost(apps[j].name, apps[k].name)
    requires i < |apps| && Resolve(apps[i], baseHost).Resolved? && Wants(Resolve(apps[i], baseHost).route, env, host)
    ensures var w := Winner(RoutesOf(apps, baseHost), env, host); w.Some? && AtMost(w.value.name, apps[i].name)
  {
    var front, last := apps[..|apps| - 1], apps[|apps| - 1];
    assert apps == front + [last];
    LastWinner(front, last, baseHost, env, host);
    ResolvedName(last, baseHost);
    if i < |front| {
      assert front[i] == apps[i];
      WinnerComesFirst(front, baseHost, env, host, i);
      hide *;
    } else if Winner(RoutesOf(front, baseHost), env, host).Some? {
      var j := WinnerSource(front, baseHost, env, host);
      ResolvedName(front[j], baseHost);
      assert AtMost(apps[j].name, apps[i].name);
      hide *;
    } else {
      AtMostTotal(last.name, last.name);
      hide *;
    }
  }

  /**
    A host goes to the eligible app whose name comes first, and to none if no app is
    eligible: the outcome depends on the table alone.
   */
  lemma HostGoesToFirstByName(rows: map<string, Row>, apps: seq<App>, baseHost: string, env: Env, host: string)
    requires QueryResult(rows, apps)
    ensures var w := Winner(RoutesOf(apps, baseHost), env, host);
      && (w.None? <==> forall name :: !Eligible(rows, name, baseHost, env, host))
      && (w.Some? ==>
            && Eligible(rows, w.value.name, baseHost, env, host)
            && Resolve(App(w.value.name, rows[w.value.name].stored), baseHost) == Resolved(w.value)
            && forall name | Eligible(rows, name, baseHost, env, host) :: AtMost(w.value.name, name))
  {
    hide Wants, RoutesOf, Winner;
    var w := Winner(RoutesOf(apps, baseHost), env, host);
    if w.Some? {
      var i := WinnerSource(apps, baseHost, env, host);
      ResolvedName(apps[i], baseHost);
      assert apps[i] == App(w.value.name, rows[w.value.name].stored);
      assert Eligible(rows, w.value.name, baseHost, env, host);
    }
    forall name | Eligible(rows, name, baseHost, env, host)
      ensures w.Some? && AtMost(w.value.name, name)
    {
      var i :| 0 <= i < |apps| && apps[i].name == name;
      assert apps[i] == App(name, rows[name].stored);
      WinnerComesFirst(apps, baseHost, env, host, i);
    }
  }

  /** The settings name a subdomain and a backend that can be reached, and the host is free for apps. */
  predicate Routable(s: Settings, baseHost: string, env: Env) {
    && s.subdomain != "" && s.backend.text != "" && s.backend.url.Some?
    && s.backend.url.value.scheme != "" && s.backend.url.value.host != ""
    && (s.oidcGate ==> env.gate)
    && ToLower(s.subdomain + "." + baseHost) !in env.reserved
  }

  lemma SavedIsEligible(rows: map<string, Row>, name: string, s: Settings, baseHost: string, env: Env)
    ensures var host := ToLower(s.subdomain + "." + baseHost);
      Eligible(rows[name := Row(true, Decoded(s))], name, baseHost, env, host) <==> Routable(s, baseHost, env)
  {
    var host := ToLower(s.subdomain + "." + baseHost);
    Dispatch.BuildableExactly(Route(name, host, s), env.gate);
    hide HandlerFor, ToLower;
  }

  /**
    Saving the settings of an app and then syncing puts its host on the router, provided
    the settings are routable; the host is served with these settings exactly if no
    eligible app for it comes first by name.
   */
  lemma SavedAppIsRouted(
      rows: map<string, Row>, name: string, s: Settings, apps: seq<App>, baseHost: string, env: Env,
      before: map<string, Handler>, managed: set<string>, after: map<string, Handler>)
    requires QueryResult(rows[name := Row(true, Decoded(s))], apps) && Routable(s, baseHost, env)
    requires Reconciled(before, managed, after, RoutesOf(apps, baseHost), env)
    ensures var host := ToLower(s.subdomain + "." + baseHost);
      var w := Winner(RoutesOf(apps, baseHost), env, host);
      && host in after && w.Some?
      && HandlerFor(w.value, env.gate) == Ready(after[host])
      && (w.value == Route(name, host, s) <==>
            forall other | Eligible(rows[name := Row(true, Decoded(s))], other, baseHost, env, host) :: AtMost(name, other))
  {
    var saved := rows[name := Row(true, Decoded(s))];
    var host := ToLower(s.subdomain + "." + baseHost);
    var routes := RoutesOf(apps, baseHost);
    SavedIsEligible(rows, name, s, baseHost, env);
    HostGoesToFirstByName(saved, apps, baseHost, env, host);
    var w := Winner(routes, env, host).value;
    WinnerIsServed(routes, env, before, managed, after, host);
    assert w.name == name ==> w == Route(name, host, s);
    FirstByName(saved, name, w.name, baseHost, env, host);
    hide *;
  }

  lemma WinnerIsServed(
      routes: seq<Route>, env: Env, before: map<string, Handler>, managed: set<string>, after: map<string, Handler>, host: string)
    requires Reconciled(before, managed, after, routes, env) && Winner(routes, env, host).Some?
    ensures host in after && HandlerFor(Winner(routes, env, host).value, env.gate) == Ready(after[host])
  {
    WinnerWants(routes, env, host);
    hide Winner;
    assert Look(after, host) == Target(before, managed, routes, env, host);
  }

  lemma FirstByName(rows: map<string, Row>, name: string, first: string, baseHost: string, env: Env, host: string)
    requires Eligible(rows, name, baseHost, env, host) && Eligible(rows, first, baseHost, env, host)
    requires forall other | Eligible(rows, other, baseHost, env, host) :: AtMost(first, other)
    ensures first == name <==> forall other | Eligible(rows, other, baseHost, env, host) :: AtMost(name, other)
  {
    hide Eligible, AtMost;
    AtMostTotal(first, name);
  }

  /** Two routers built over the same fixed routes from the same rows are equal, whatever happened before. */
  lemma RebuiltUnique(
      one: map<string, Handler>, other: map<string, Handler>, fixed: map<string, Handler>, routes: seq<Route>, env: Env)
    requires Rebuilt(one, fixed, routes, env) && Rebuilt(other, fixed, routes, env)
    ensures one == other
  {
    forall host
      ensures Look(one, host) == Look(other, host)
    {
      hide Winner, NewRoute;
    }
    SameLooks(one, other);
  }

  lemma SameLooks(one: map<string, Handler>, other: map<string, Handler>)
    requires forall host :: Look(one, host) == Look(other, host)
    ensures one == other
  {
    forall host
      ensures host in one <==> host in other
      ensures host in one && host in other ==> one[host] == other[host]
    {
      assert Look(one, host) == Look(other, host);
    }
  }

  // --- what requests observe ---

  lemma {:induction false} WinnerHasRoute(routes: seq<Route>, env: Env, host: string)
    ensures NewRoute(routes, env, host).Some? <==> Winner(routes, env, host).Some?
  {
    WinnerWants(routes, env, host);
    hide Winner;
  }

  /**
    While a sync runs, a host managed before and after always has a handler, its old or
    its new one, and no host is routed that was not and will not be.
   */
  lemma NoRoutingGap(
      state: map<string, Handler>, before: map<string, Handler>, managed: set<string>, routes: seq<Route>, env: Env, host: string)
    requires Between(state, before, managed, routes, env)
    ensures host in before && Winner(routes, env, host).Some? ==>
      host in state && (state[host] == before[host] || Some(state[host]) == NewRoute(routes, env, host))
    ensures host in state ==> host in before || Winner(routes, env, host).Some?
    ensures host in before && host !in managed && Winner(routes, env, host).None? ==> host in state && state[host] == before[host]
  {
    WinnerHasRoute(routes, env, host);
    hide Winner, NewRoute;
    assert Look(state, host) == Look(before, host) || Look(state, host) == Target(before, managed, routes, env, host);
  }

  /**
    The route of a reserved host outlives a sync exactly when no app was managing the
    host: one that an app took before it was reserved is removed.
   */
  lemma ReservedOutlivesExactly(
      before: map<string, Handler>, managed: set<string>, after: map<string, Handler>, routes: seq<Route>, env: Env, host: string)
    requires Reconciled(before, managed, after, routes, env) && host in env.reserved && host in before
    ensures host in after && after[host] == before[host] <==> host !in managed
  {
    WinnerWants(routes, env, host);
    hide Winner;
    assert Look(after, host) == Target(before, managed, routes, env, host);
  }

  /** A fixed host that is reserved only after a sync has given it to an app is not routed after the next sync. */
  method ReservedTooLate(app: App, baseHost: string) returns (server: Server)
    requires Resolve(app, baseHost).Resolved? && HandlerFor(Resolve(app, baseHost).route, false).Ready?
    ensures Resolve(app, baseHost).route.host !in server.routes
  {
    var r := Resolve(app, baseHost).route;
    server := new Server(Fixed(0));
    server.AddRoute(r.host, Fixed(1));
    var manager := new RouteManager(server, baseHost, false);
    OnlyWinner(app, baseHost, Env({}, false));
    var first := manager.Sync(Some([app]));
    assert r.host in manager.Managed();
    manager.Reserve([r.host]);
    LowerHost(app, baseHost);
    assert ToLower([r.host][0]) == r.host;
    assert r.host in manager.reserved;
    ghost var env, before, managed := Env(manager.reserved, false), server.routes, manager.Managed();
    WinnerWants(RoutesOf([app], baseHost), env, r.host);
    var second := manager.Sync(Some([app]));
    assert Look(server.routes, r.host) == Target(before, managed, RoutesOf([app], baseHost), env, r.host);
  }

  /** Reserved before the first sync, as the server does it, the host keeps its fixed route. */
  method ReservedInTime(app: App, baseHost: string) returns (server: Server)
    requires Resolve(app, baseHost).Resolved?
    ensures var host := Resolve(app, baseHost).route.host; host in server.routes && server.routes[host] == Fixed(1)
  {
    var r := Resolve(app, baseHost).route;
    server := new Server(Fixed(0));
    LowerHost(app, baseHost);
    server.AddRoute(r.host, Fixed(1));
    var manager := new RouteManager(server, baseHost, false);
    manager.Reserve([r.host]);
    assert ToLower([r.host][0]) == r.host;
    assert r.host in manager.reserved;
    ghost var env := Env(manager.reserved, false);
    WinnerWants(RoutesOf([app], baseHost), env, r.host);
    var result := manager.Sync(Some([app]));
    assert Look(server.routes, r.host) == Look(manager.fixed, r.host);
  }

  lemma LowerHost(app: App, baseHost: string)
    requires Resolve(app, baseHost).Resolved?
    ensures ToLower(Resolve(app, baseHost).route.host) == Resolve(app, baseHost).route.host
  {
    RouteHostsLower([app], baseHost);
    OnlyRoute(app, baseHost);
    assert RoutesOf([app], baseHost)[0] == Resolve(app, baseHost).route;
  }

  lemma OnlyRoute(app: App, baseHost: string)
    requires Resolve(app, baseHost).Resolved?
    ensures RoutesOf([app], baseHost) == [Resolve(app, baseHost).route]
  {
    assert [app][..0] == [];
  }

  lemma OnlyWinner(app: App, baseHost: string, env: Env)
    requires Resolve(app, baseHost).Resolved? && Wants(Resolve(app, baseHost).route, env, Resolve(app, baseHost).route.host)
    ensures Winner(RoutesOf([app], baseHost), env, Resolve(app, baseHost).route.host).Some?
  {
    OnlyRoute(app, baseHost);
  }

  // --- every app is routed or reported ---

  ghost predicate Reported(problems: seq<Problem>, app: string) {
    exists i | 0 <= i < |problems| :: problems[i].app == app
  }

  lemma ReportedAppends(problems: seq<Problem>, more: seq<Problem>, app: string)
    ensures Reported(problems + more, app) <==> Reported(problems, app) || Reported(more, app)
  {
    assert forall i | 0 <= i < |problems| :: (problems + more)[i] == problems[i];
    assert forall i | 0 <= i < |more| :: (problems + more)[|problems| + i] == more[i];
  }

  /** No app is reported twice. */
  ghost predicate ReportedOnce(problems: seq<Problem>) {
    forall i, j | 0 <= i < j < |problems| :: problems[i].app != problems[j].app
  }

  ghost predicate NamedIn(routes: seq<Route>, name: string) {
    exists i | 0 <= i < |routes| :: routes[i].name == name
  }

  ghost predicate Listed(apps: seq<App>, name: string) {
    exists i | 0 <= i < |apps| :: apps[i].name == name
  }

  /** The rows split into routes and rejected ones. */
  lemma {:induction false} RowsSplit(apps: seq<App>, baseHost: string)
    requires NamesDistinct(apps)
    ensures var routes, rejected := RoutesOf(apps, baseHost), RejectedOf(apps, baseHost);
      && |routes| + |rejected| == |apps|
      && ReportedOnce(rejected)
      && (forall name :: Listed(apps, name) <==> NamedIn(routes, name) || Reported(rejected, name))
      && (forall name :: !(NamedIn(routes, name) && Reported(rejected, name)))
  {
    if apps != [] {
      var front, last := apps[..|apps| - 1], apps[|apps| - 1];
      RowsSplit(front, baseHost);
      var r := Resolve(last, baseHost);
      ResolvedName(last, baseHost);
      assert apps == front + [last];
      forall name
        ensures Listed(apps, name) <==> Listed(front, name) || name == last.name
      {
        ListedAppends(front, last, name);
      }
      assert !Listed(front, last.name);
      var routes, rejected := RoutesOf(front, baseHost), RejectedOf(front, baseHost);
      forall name
        ensures r.Resolved? ==> (NamedIn(routes + [r.route], name) <==> NamedIn(routes, name) || name == last.name)
        ensures r.Rejected? ==> (Reported(rejected + [Problem(last.name, r.reason)], name) <==> Reported(rejected, name) || name == last.name)
      {
        if r.Resolved? { NamedAppends(routes, r.route, name); }
        else { OneReported(rejected, Problem(last.name, r.reason), name); }
      }
      if r.Rejected? { ReportedOnceMore(rejected, Problem(last.name, r.reason)); }
      assert routes + [] == routes && rejected + [] == rejected;
      hide Resolve, NamedIn, Reported, ReportedOnce, Listed;
    }
  }

  lemma ResolvedName(app: App, baseHost: string)
    ensures Resolve(app, baseHost).Resolved? ==> Resolve(app, baseHost).route.name == app.name
  {}

  lemma ListedAppends(apps: seq<App>, last: App, name: string)
    ensures Listed(apps + [last], name) <==> Listed(apps, name) || name == last.name
  {
    assert (apps + [last])[|apps|] == last;
    assert forall i | 0 <= i < |apps| :: (apps + [last])[i] == apps[i];
  }

  lemma NamedAppends(routes: seq<Route>, last: Route, name: string)
    ensures NamedIn(routes + [last], name) <==> NamedIn(routes, name) || name == last.name
  {
    assert (routes + [last])[|routes|] == last;
    assert forall i | 0 <= i < |routes| :: (routes + [last])[i] == routes[i];
  }

  lemma OneReported(problems: seq<Problem>, last: Problem, name: string)
    ensures Reported(problems + [last], name) <==> Reported(problems, name) || name == last.app
  {
    assert (problems + [last])[|problems|] == last;
    assert forall i | 0 <= i < |problems| :: (problems + [last])[i] == problems[i];
  }

  lemma ReportedOnceMore(problems: seq<Problem>, last: Problem)
    requires ReportedOnce(problems) && !Reported(problems, last.app)
    ensures ReportedOnce(problems + [last])
  {}

  /** The routes split into registered and refused ones. */
  lemma {:induction false} RoutesSplit(routes: seq<Route>, env: Env)
    requires DistinctNames(routes)
    ensures var desired, refused := Desired(routes, env), RefusedOf(routes, env);
      && |desired| + |refused| == |routes|
      && ReportedOnce(refused)
      && (forall name :: NamedIn(routes, name) <==> name in desired || Reported(refused, name))
      && (forall name :: !(name in desired && Reported(refused, name)))
  {
    if routes != [] {
      var front, last := routes[..|routes| - 1], routes[|routes| - 1];
      RoutesSplit(front, env);
      var refusal := Refusal(front, last, env);
      assert refusal.None? ==> HandlerFor(last, env.gate).Ready?;
      assert routes == front + [last];
      var refused := RefusedOf(front, env);
      forall name
        ensures NamedIn(routes, name) <==> NamedIn(front, name) || name == last.name
        ensures refusal.Some? ==> (Reported(refused + [Problem(last.name, refusal.value)], name) <==> Reported(refused, name) || name == last.name)
      {
        NamedAppends(front, last, name);
        if refusal.Some? { OneReported(refused, Problem(last.name, refusal.value), name); }
      }
      assert !NamedIn(front, last.name);
      if refusal.Some? { ReportedOnceMore(refused, Problem(last.name, refusal.value)); }
      assert refused + [] == refused;
      hide Refusal, HandlerFor, NamedIn, Reported, ReportedOnce;
    }
  }

  /** Routed apps and problems together are the enabled rows: each app is routed or reported, exactly once. */
  lemma RoutedOrReported(apps: seq<App>, baseHost: string, env: Env)
    requires NamesDistinct(apps)
    ensures var routes := RoutesOf(apps, baseHost);
      var desired, problems := Desired(routes, env), RejectedOf(apps, baseHost) + RefusedOf(routes, env);
      && |desired| + |problems| == |apps|
      && ReportedOnce(problems)
      && (forall name :: Listed(apps, name) <==> name in desired || Reported(problems, name))
      && (forall name :: !(name in desired && Reported(problems, name)))
  {
    var routes := RoutesOf(apps, baseHost);
    var rejected, refused := RejectedOf(apps, baseHost), RefusedOf(routes, env);
    RowsSplit(apps, baseHost);
    RouteNames(apps, baseHost);
    RoutesSplit(routes, env);
    hide RoutesOf, RejectedOf, RefusedOf, Desired, Listed, NamedIn;
    forall name
      ensures Reported(rejected + refused, name) <==> Reported(rejected, name) || Reported(refused, name)
    {
      ReportedAppends(rejected, refused, name);
    }
    OnceEach(rejected, refused);
    hide Reported, ReportedOnce;
  }

  lemma OnceEach(rejected: seq<Problem>, refused: seq<Problem>)
    requires ReportedOnce(rejected) && ReportedOnce(refused)
    requires forall name :: !(Reported(rejected, name) && Reported(refused, name))
    ensures ReportedOnce(rejected + refused)
  {
    var all := rejected + refused;
    forall i, j | 0 <= i < j < |all|
      ensures all[i].app != all[j].app
    {
      if i < |rejected| <= j {
        assert rejected[i] == all[i] && refused[j - |rejected|] == all[j];
        assert Reported(rejected, all[i].app) && Reported(refused, all[j].app);
      }
    }
  }

  /** Managed hosts are pairwise distinct, and none of them is reserved. */
  lemma ManagedHostsDistinct(routes: seq<Route>, env: Env)
    requires DistinctNames(routes)
    ensures var desired := Desired(routes, env);
      && (forall a, b | a in desired && b in desired && a != b :: desired[a].host != desired[b].host)
      && (forall a | a in desired :: desired[a].host !in env.reserved)
  {
    DesiredWins(routes, env);
    forall a | a in Desired(routes, env)
      ensures Desired(routes, env)[a].host !in env.reserved
    {
      WinnerWants(routes, env, Desired(routes, env)[a].host);
    }
    hide Desired, Winner, HandlerFor;
  }

  // --- what the reports mean ---

  /** What is wrong with the row of an app that is rejected for this reason. */
  predicate RejectedFor(app: App, reason: Reason) {
    match reason
    case DecodeFailed => app.stored.Broken?
    case SubdomainEmpty => app.stored.Blank? || (app.stored.Decoded? && app.stored.settings.subdomain == "")
    case BackendEmpty =>
      app.stored.Decoded? && app.stored.settings.subdomain != "" && app.stored.settings.backend.text == ""
    case other => false
  }

  /** Exactly the apps whose row has such a fault are rejected, each for the fault that its row has. */
  lemma {:induction false} RejectedExactly(apps: seq<App>, baseHost: string)
    ensures forall p :: p in RejectedOf(apps, baseHost) <==>
      exists i | 0 <= i < |apps| :: apps[i].name == p.app && RejectedFor(apps[i], p.reason)
    ensures forall r :: r in RoutesOf(apps, baseHost) <==>
      exists i | 0 <= i < |apps| ::
        && apps[i].stored.Decoded? && apps[i].stored.settings.subdomain != "" && apps[i].stored.settings.backend.text != ""
        && r == Route(apps[i].name, ToLower(apps[i].stored.settings.subdomain + "." + baseHost), apps[i].stored.settings)
  {
    if apps != [] {
      var front, last := apps[..|apps| - 1], apps[|apps| - 1];
      assert apps == front + [last];
      RejectedExactly(front, baseHost);
      hide ToLower;
      forall p
        ensures p in RejectedOf(apps, baseHost) <==> p in RejectedOf(front, baseHost) || (last.name == p.app && RejectedFor(last, p.reason))
      {}
      assert forall i | 0 <= i < |front| :: front[i] == apps[i];
    }
  }

  /** The backend has no scheme or no host, or is no URL. */
  predicate Unreachable(b: Backend) {
    b.text == "" || b.url.None? || b.url.value.scheme == "" || b.url.value.host == ""
  }

  predicate Servable(r: Route, gate: bool) { !Unreachable(r.settings.backend) && (r.settings.oidcGate ==> gate) }

  /** The route at `j` is the first servable one with the host, and comes before `i`. */
  predicate TakesFirst(routes: seq<Route>, i: nat, j: nat, host: string, gate: bool)
    requires i <= |routes|
  {
    j < i && routes[j].host == host && Servable(routes[j], gate)
    && forall k | 0 <= k < j :: routes[k].host == host ==> !Servable(routes[k], gate)
  }

  lemma {:induction false} WinnerIsFirst(routes: seq<Route>, env: Env, host: string)
    ensures var w := Winner(routes, env, host);
      && (w.Some? ==> host !in env.reserved && exists j: nat :: TakesFirst(routes, |routes|, j, host, env.gate) && routes[j] == w.value)
      && (w.None? && host !in env.reserved ==> forall j: nat :: !TakesFirst(routes, |routes|, j, host, env.gate))
  {
    if routes != [] {
      var front, last := routes[..|routes| - 1], routes[|routes| - 1];
      WinnerIsFirst(front, env, host);
      Dispatch.BuildableExactly(last, env.gate);
      assert Wants(last, env, host) <==> last.host == host && host !in env.reserved && Servable(last, env.gate);
      hide Wants, Servable;
      var w := Winner(front, env, host);
      if w.Some? {
        var j: nat :| TakesFirst(front, |front|, j, host, env.gate) && front[j] == w.value;
        assert TakesFirst(routes, |routes|, j, host, env.gate);
      } else if host !in env.reserved {
        NoneServable(front, host, env.gate);
        if Wants(last, env, host) { assert TakesFirst(routes, |routes|, |front|, host, env.gate); }
      }
    }
  }

  /** When no route takes the host first, none can be served under it. */
  lemma NoneServable(routes: seq<Route>, host: string, gate: bool)
    requires forall j: nat :: !TakesFirst(routes, |routes|, j, host, gate)
    ensures forall k | 0 <= k < |routes| :: routes[k].host == host ==> !Servable(routes[k], gate)
  {
    hide Servable;
    var n := 0;
    while n < |routes|
      invariant n <= |routes|
      invariant forall k | 0 <= k < n :: routes[k].host == host ==> !Servable(routes[k], gate)
    {
      assert !TakesFirst(routes, |routes|, n, host, gate);
      n := n + 1;
    }
  }

  /** What stands in the way of the route at `i`: a reservation, an earlier app, its backend, or the missing gate, in this order. */
  ghost predicate RefusedFor(routes: seq<Route>, i: nat, env: Env, reason: Reason)
    requires i < |routes|
  {
    var r := routes[i];
    var taken := exists j: nat :: TakesFirst(routes, i, j, r.host, env.gate);
    match reason
    case HostReserved => r.host in env.reserved
    case HostTaken(owner) =>
      r.host !in env.reserved && exists j: nat :: TakesFirst(routes, i, j, r.host, env.gate) && routes[j].name == owner
    case BackendInvalid => r.host !in env.reserved && !taken && Unreachable(r.settings.backend)
    case NoGate => r.host !in env.reserved && !taken && !Unreachable(r.settings.backend) && r.settings.oidcGate && !env.gate
    case other => false
  }

  lemma RefusalExactly(front: seq<Route>, last: Route, env: Env, reason: Reason)
    ensures Refusal(front, last, env) == Some(reason) <==> RefusedFor(front + [last], |front|, env, reason)
  {
    var routes := front + [last];
    var host := last.host;
    WinnerIsFirst(front, env, host);
    assert last == routes[|front|];
    forall j: nat
      ensures TakesFirst(routes, |front|, j, host, env.gate) <==> TakesFirst(front, |front|, j, host, env.gate)
    {
      assert forall k | 0 <= k < |front| :: routes[k] == front[k];
      hide Servable;
    }
    forall j: nat, j': nat
      ensures TakesFirst(front, |front|, j, host, env.gate) && TakesFirst(front, |front|, j', host, env.gate) ==> j == j'
    {
      hide Servable;
    }
    hide TakesFirst, Winner, Servable;
  }

  lemma RefusedForAppends(front: seq<Route>, last: Route, env: Env, i: nat, reason: Reason)
    requires i < |front|
    ensures RefusedFor(front + [last], i, env, reason) <==> RefusedFor(front, i, env, reason)
  {
    var routes := front + [last];
    assert forall k | 0 <= k < |front| :: routes[k] == front[k];
    forall j: nat
      ensures TakesFirst(routes, i, j, front[i].host, env.gate) <==> TakesFirst(front, i, j, front[i].host, env.gate)
    {
      hide Servable;
    }
    hide TakesFirst, Unreachable;
  }

  /** Exactly the routes with an obstacle are refused, each for the first obstacle it meets. */
  lemma {:induction false} RefusedExactly(routes: seq<Route>, env: Env)
    ensures forall p :: p in RefusedOf(routes, env) <==>
      exists i: nat | i < |routes| :: routes[i].name == p.app && RefusedFor(routes, i, env, p.reason)
  {
    if routes != [] {
      var front, last := routes[..|routes| - 1], routes[|routes| - 1];
      assert routes == front + [last];
      RefusedExactly(front, env);
      forall i: nat, reason | i < |front|
        ensures RefusedFor(routes, i, env, reason) <==> RefusedFor(front, i, env, reason)
      {
        RefusedForAppends(front, last, env, i, reason);
      }
      forall reason
        ensures Refusal(front, last, env) == Some(reason) <==> RefusedFor(routes, |front|, env, reason)
      {
        RefusalExactly(front, last, env, reason);
      }
      hide RefusedFor, Refusal;
      forall p
        ensures p in RefusedOf(routes, env) <==> p in RefusedOf(front, env) || (last.name == p.app && Refusal(front, last, env) == Some(p.reason))
      {}
    }
  }

  lemma {:induction false} WinnerStays(routes: seq<Route>, n: nat, env: Env, host: string)
    requires n <= |routes| && Winner(routes[..n], env, host).Some?
    ensures Winner(routes, env, host) == Winner(routes[..n], env, host)
  {
    hide Wants;
    if n == |routes| {
      assert routes[..n] == routes;
    } else {
      var front := routes[..|routes| - 1];
      assert front[..n] == routes[..n];
      WinnerStays(front, n, env, host);
    }
  }

  /** The reason given for a refusal is true of the finished sync: a taken host is held by the app that is named. */
  lemma {:induction false} RefusalsAreTrue(routes: seq<Route>, env: Env, i: nat)
    requires DistinctNames(routes) && i < |RefusedOf(routes, env)|
    ensures var p := RefusedOf(routes, env)[i];
      exists r | r in routes && r.name == p.app ::
        match p.reason
        case HostReserved => r.host in env.reserved
        case HostTaken(owner) =>
          && Winner(routes, env, r.host).Some? && Winner(routes, env, r.host).value.name == owner && owner != p.app
        case BackendInvalid => Unreachable(r.settings.backend)
        case NoGate => r.settings.oidcGate && !env.gate
        case other => false
  {
    var front, last := routes[..|routes| - 1], routes[|routes| - 1];
    var refused := RefusedOf(front, env);
    if i < |refused| {
      RefusalsAreTrue(front, env, i);
      var p := refused[i];
      var r :| r in front && r.name == p.app &&
        match p.reason
        case HostReserved => r.host in env.reserved
        case HostTaken(owner) =>
          Winner(front, env, r.host).Some? && Winner(front, env, r.host).value.name == owner && owner != p.app
        case BackendInvalid => Unreachable(r.settings.backend)
        case NoGate => r.settings.oidcGate && !env.gate
        case other => false;
      assert r in routes;
      if p.reason.HostTaken? { WinnerStays(routes, |front|, env, r.host); }
    } else {
      assert last in routes;
      var refusal := Refusal(front, last, env).value;
      if refusal.HostTaken? {
        WinnerStays(routes, |front|, env, last.host);
        WinnerWants(front, env, last.host);
      }
    }
  }
}
