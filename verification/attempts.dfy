/**
  Login attempts from both forms as interleaved steps.

  Asking the throttle, checking the password and recording the outcome are separate
  steps, so several attempts can pass the throttle before the first failure counts.
 */
module Attempts {
  import opened Throttle
  import opened Budgets

  datatype Attempt = Attempt(ip: string, username: string)

  /** The record of the throttle, the attempts that passed it and have not ended, and the clock. */
  datatype Site = Site(log: seq<Event>, inFlight: map<nat, Attempt>, now: Time)

  datatype Step =
    | Begin(id: nat, attempt: Attempt, t: Time, t': Time)
    | Fail(id: nat, at: Time)
    | Succeed(id: nat, at: Time)

  datatype Limits = Limits(max: int, ipMax: int, window: Time, concurrent: nat)

  predicate Sensible(l: Limits) { l.max > 0 && l.ipMax > 0 && l.window > 0 && l.concurrent > 0 }

  function InFlightFrom(inFlight: map<nat, Attempt>, ip: string): set<nat> {
    set id | id in inFlight && inFlight[id].ip == ip
  }

  predicate Enabled(s: Site, e: Step, l: Limits) {
    match e
    case Begin(id, a, t, t') =>
      && id !in s.inFlight && s.now <= t <= t'
      && Allowed(s.log, a.ip, a.username, l.max, l.ipMax, l.window, t, t')
      && |InFlightFrom(s.inFlight, a.ip)| < l.concurrent
    case Fail(id, at) => id in s.inFlight && s.now <= at
    case Succeed(id, at) => id in s.inFlight && s.now <= at
  }

  function After(s: Site, e: Step, l: Limits): Site
    requires Enabled(s, e, l)
  {
    match e
    case Begin(id, a, _, t') => Site(s.log, s.inFlight[id := a], t')
    case Fail(id, at) =>
      Site(s.log + [Failure(s.inFlight[id].ip, s.inFlight[id].username, at)], s.inFlight - {id}, at)
    case Succeed(id, at) =>
      Site(s.log + [Success(s.inFlight[id].ip, s.inFlight[id].username)], s.inFlight - {id}, at)
  }

  ghost predicate Legal(s: Site, es: seq<Step>, l: Limits)
    decreases |es|
  {
    es == [] || (Enabled(s, es[0], l) && Legal(After(s, es[0], l), es[1..], l))
  }

  ghost function AfterAll(s: Site, es: seq<Step>, l: Limits): Site
    requires Legal(s, es, l)
    decreases |es|
  {
    if es == [] then s else AfterAll(After(s, es[0], l), es[1..], l)
  }

  function NewSite(now: Time): Site { Site([], map[], now) }

  /** A failure counts against both budgets; a success clears the budget of its user alone; asking changes none. */
  lemma OutcomesCount(s: Site, e: Step, l: Limits, ip: string, username: string, cutoff: Time)
    requires Enabled(s, e, l)
    ensures var log := After(s, e, l).log;
      var who := if e.Begin? then e.attempt else s.inFlight[e.id];
      && (e.Begin? ==> log == s.log)
      && UserTries(log, ip, username, cutoff) == (
           if e.Succeed? && who == Attempt(ip, username) then {} else
           UserTries(s.log, ip, username, cutoff)
           + if e.Fail? && who == Attempt(ip, username) && e.at > cutoff then {|s.log|} else {})
      && AddressTries(log, ip, cutoff)
           == AddressTries(s.log, ip, cutoff) + if e.Fail? && who.ip == ip && e.at > cutoff then {|s.log|} else {}
  {
    if e.Begin? {
    } else if e.Fail? {
      TriesAfter(s.log, Failure(s.inFlight[e.id].ip, s.inFlight[e.id].username, e.at), ip, username, cutoff);
    } else {
      TriesAfter(s.log, Success(s.inFlight[e.id].ip, s.inFlight[e.id].username), ip, username, cutoff);
    }
    hide UserTries, AddressTries;
  }

  // --- the bound ---

  /** Failures in the window after `start`. */
  function InWindow(times: seq<Time>, start: Time, window: Time): seq<Time> {
    if times == [] then []
    else
      var last := times[|times| - 1];
      InWindow(times[..|times| - 1], start, window) + if start < last <= start + window then [last] else []
  }

  function Bound(l: Limits): int { l.ipMax + l.concurrent - 1 }

  /** What is inside the current window plus what is still in flight; and what any window ever held. */
  ghost predicate Bounded(s: Site, ip: string, l: Limits) {
    && |Recent(IpFailures(s.log, ip), s.now - l.window)| + |InFlightFrom(s.inFlight, ip)| <= Bound(l)
    && (forall start: Time :: |InWindow(IpFailures(s.log, ip), start, l.window)| <= Bound(l))
  }

  lemma {:induction false} RecentShrinks(times: seq<Time>, cutoff: Time, later: Time)
    requires cutoff <= later
    ensures |Recent(times, later)| <= |Recent(times, cutoff)|
  {
    if times != [] { RecentShrinks(times[..|times| - 1], cutoff, later); }
  }

  lemma {:induction false} WindowIsRecent(times: seq<Time>, start: Time, window: Time)
    ensures |InWindow(times, start, window)| <= |Recent(times, start)|
  {
    if times != [] { WindowIsRecent(times[..|times| - 1], start, window); }
  }

  lemma IpFailuresMore(log: seq<Event>, e: Event, ip: string)
    ensures IpFailures(log + [e], ip) == if e.Failure? && e.ip == ip then IpFailures(log, ip) + [e.at] else IpFailures(log, ip)
  {
    assert (log + [e])[..|log|] == log;
  }

  lemma RecentMore(times: seq<Time>, at: Time, cutoff: Time)
    ensures |Recent(times + [at], cutoff)| <= |Recent(times, cutoff)| + 1
  {
    assert (times + [at])[..|times|] == times;
  }

  /** A window that ends before a new failure, or begins after it, does not contain it. */
  lemma WindowMore(times: seq<Time>, at: Time, start: Time, window: Time, bound: int)
    requires |InWindow(times, start, window)| <= bound && |Recent(times + [at], at - window)| <= bound
    ensures |InWindow(times + [at], start, window)| <= bound
  {
    assert (times + [at])[..|times|] == times;
    if start < at <= start + window {
      WindowIsRecent(times + [at], start, window);
      RecentShrinks(times + [at], at - window, start);
    }
  }

  lemma OneFewer(inFlight: map<nat, Attempt>, id: nat, ip: string)
    requires id in inFlight
    ensures InFlightFrom(inFlight - {id}, ip) == InFlightFrom(inFlight, ip) - {id}
    ensures inFlight[id].ip == ip ==> |InFlightFrom(inFlight - {id}, ip)| == |InFlightFrom(inFlight, ip)| - 1
    ensures |InFlightFrom(inFlight - {id}, ip)| <= |InFlightFrom(inFlight, ip)|
  {
    assert InFlightFrom(inFlight - {id}, ip) == InFlightFrom(inFlight, ip) - {id};
    if inFlight[id].ip == ip { assert id in InFlightFrom(inFlight, ip); }
    else { assert InFlightFrom(inFlight - {id}, ip) == InFlightFrom(inFlight, ip); }
  }

  lemma OneMore(inFlight: map<nat, Attempt>, id: nat, a: Attempt, ip: string)
    requires id !in inFlight
    ensures |InFlightFrom(inFlight[id := a], ip)| == |InFlightFrom(inFlight, ip)| + if a.ip == ip then 1 else 0
  {
    if a.ip == ip { assert InFlightFrom(inFlight[id := a], ip) == InFlightFrom(inFlight, ip) + {id}; }
    else { assert InFlightFrom(inFlight[id := a], ip) == InFlightFrom(inFlight, ip); }
  }

  lemma BoundKept(s: Site, e: Step, ip: string, l: Limits)
    requires Sensible(l) && Bounded(s, ip, l) && Enabled(s, e, l)
    ensures Bounded(After(s, e, l), ip, l)
  {
    hide Recent, InWindow, IpFailures, InFlightFrom, UserFailures;
    var times := IpFailures(s.log, ip);
    var now := After(s, e, l).now;
    RecentShrinks(times, s.now - l.window, now - l.window);
    match e
    case Begin(id, a, t, t') =>
      OneMore(s.inFlight, id, a, ip);
    case Succeed(id, at) =>
      OneFewer(s.inFlight, id, ip);
      IpFailuresMore(s.log, Success(s.inFlight[id].ip, s.inFlight[id].username), ip);
    case Fail(id, at) =>
      OneFewer(s.inFlight, id, ip);
      IpFailuresMore(s.log, Failure(s.inFlight[id].ip, s.inFlight[id].username, at), ip);
      if s.inFlight[id].ip == ip {
        RecentMore(times, at, at - l.window);
        forall start: Time
          ensures |InWindow(times + [at], start, l.window)| <= Bound(l)
        {
          WindowMore(times, at, start, l.window, Bound(l));
        }
      }
  }

  lemma {:induction false} BoundAlways(s: Site, es: seq<Step>, ip: string, l: Limits)
    requires Sensible(l) && Bounded(s, ip, l) && Legal(s, es, l)
    ensures Bounded(AfterAll(s, es, l), ip, l)
    decreases |es|
  {
    if es != [] {
      hide Bounded, Enabled, After;
      BoundKept(s, es[0], ip, l);
      BoundAlways(After(s, es[0], l), es[1..], ip, l);
    }
  }

  /**
    In every interleaving of attempts with at most `concurrent` of them in flight per
    address, the failures in any window, and those of the last window together with the
    attempts in flight, never exceed ipMax + concurrent - 1.
   */
  lemma FailuresAreBounded(now: Time, es: seq<Step>, ip: string, l: Limits)
    requires Sensible(l) && Legal(NewSite(now), es, l)
    ensures Bounded(AfterAll(NewSite(now), es, l), ip, l)
  {
    assert InFlightFrom(map[], ip) == {};
    assert IpFailures([], ip) == [] && Recent([], now - l.window) == [];
    assert forall start: Time :: InWindow([], start, l.window) == [];
    BoundAlways(NewSite(now), es, ip, l);
  }

  // --- the bound is reached ---

  function Name(i: nat): string { seq(i, _ => 'a') }

  function Failures(ip: string, n: nat): seq<Event> {
    seq(n, i requires 0 <= i < n => Failure(ip, Name(i), 0))
  }

  lemma {:induction false} FailuresCount(ip: string, n: nat)
    ensures |IpFailures(Failures(ip, n), ip)| == n
    ensures forall i | 0 <= i < n :: IpFailures(Failures(ip, n), ip)[i] == 0
  {
    if n > 0 {
      FailuresCount(ip, n - 1);
      assert Failures(ip, n)[..n - 1] == Failures(ip, n - 1);
    }
  }

  lemma {:induction false} NoneYet(ip: string, n: nat, k: nat)
    requires n <= k
    ensures UserFailures(Failures(ip, n), ip, Name(k)) == []
  {
    if n > 0 {
      NoneYet(ip, n - 1, k);
      assert Failures(ip, n)[..n - 1] == Failures(ip, n - 1);
      assert |Name(n - 1)| != |Name(k)|;
    }
  }

  lemma {:induction false} AllRecent(times: seq<Time>, cutoff: Time)
    requires forall i | 0 <= i < |times| :: times[i] > cutoff
    ensures |Recent(times, cutoff)| == |times|
  {
    if times != [] { AllRecent(times[..|times| - 1], cutoff); }
  }

  /** With `n` failures on record another name may still be tried, as long as the address's budget lasts. */
  lemma StillAllowed(ip: string, n: nat, k: nat, l: Limits)
    requires Sensible(l) && n < l.ipMax && n <= k
    ensures Allowed(Failures(ip, n), ip, Name(k), l.max, l.ipMax, l.window, 0, 0)
  {
    NoneYet(ip, n, k);
    FailuresCount(ip, n);
    AllRecent(IpFailures(Failures(ip, n), ip), -l.window);
    assert Recent([], -l.window) == [];
  }

  /** Attempts `from` up to `to`, all in flight. */
  function Flying(ip: string, from: nat, to: nat): map<nat, Attempt> {
    map id | from <= id < to :: Attempt(ip, Name(id))
  }

  function Reached(ip: string, failed: nat, started: nat): Site {
    Site(Failures(ip, failed), Flying(ip, failed, started), 0)
  }

  lemma {:induction false} FlyingCount(ip: string, from: nat, to: nat)
    requires from <= to
    ensures |InFlightFrom(Flying(ip, from, to), ip)| == to - from
  {
    if from == to {
      assert InFlightFrom(Flying(ip, from, to), ip) == {};
    } else {
      FlyingCount(ip, from, to - 1);
      assert Flying(ip, from, to) == Flying(ip, from, to - 1)[to - 1 := Attempt(ip, Name(to - 1))];
      OneMore(Flying(ip, from, to - 1), to - 1, Attempt(ip, Name(to - 1)), ip);
    }
  }

  lemma StartOne(ip: string, failed: nat, started: nat, l: Limits)
    requires Sensible(l) && failed <= started < failed + l.concurrent && failed < l.ipMax
    ensures var e := Begin(started, Attempt(ip, Name(started)), 0, 0);
      && Enabled(Reached(ip, failed, started), e, l)
      && After(Reached(ip, failed, started), e, l) == Reached(ip, failed, started + 1)
  {
    StillAllowed(ip, failed, started, l);
    FlyingCount(ip, failed, started);
    assert Flying(ip, failed, started + 1) == Flying(ip, failed, started)[started := Attempt(ip, Name(started))];
    hide Allowed, InFlightFrom;
  }

  lemma FailOne(ip: string, failed: nat, started: nat, l: Limits)
    requires failed < started
    ensures var e := Fail(failed, 0);
      && Enabled(Reached(ip, failed, started), e, l)
      && After(Reached(ip, failed, started), e, l) == Reached(ip, failed + 1, started)
  {
    assert Flying(ip, failed, started) - {failed} == Flying(ip, failed + 1, started);
    assert Failures(ip, failed) + [Failure(ip, Name(failed), 0)] == Failures(ip, failed + 1);
  }

  lemma Then(s: Site, e: Step, es: seq<Step>, l: Limits)
    requires Enabled(s, e, l) && Legal(After(s, e, l), es, l)
    ensures Legal(s, [e] + es, l) && AfterAll(s, [e] + es, l) == AfterAll(After(s, e, l), es, l)
  {
    hide Enabled, After;
    assert ([e] + es)[1..] == es;
  }

  /** First one by one, then as many at once as may fly, then they all fail. */
  lemma {:induction false} Onward(ip: string, failed: nat, started: nat, l: Limits) returns (es: seq<Step>)
    requires Sensible(l) && failed <= started <= failed + l.concurrent && started <= Bound(l)
    requires failed < l.ipMax - 1 ==> started <= failed + 1
    requires failed >= l.ipMax ==> started == Bound(l)
    ensures Legal(Reached(ip, failed, started), es, l)
    ensures AfterAll(Reached(ip, failed, started), es, l) == Reached(ip, Bound(l), Bound(l))
    decreases 2 * Bound(l) - failed - started
  {
    hide Enabled, After, Reached;
    if failed == Bound(l) {
      es := [];
    } else if started < Bound(l) && failed < l.ipMax && (failed == started || failed == l.ipMax - 1) {
      es := Onward(ip, failed, started + 1, l);
      StartOne(ip, failed, started, l);
      var e := Begin(started, Attempt(ip, Name(started)), 0, 0);
      Then(Reached(ip, failed, started), e, es, l);
      es := [e] + es;
    } else {
      es := Onward(ip, failed + 1, started, l);
      FailOne(ip, failed, started, l);
      Then(Reached(ip, failed, started), Fail(failed, 0), es, l);
      es := [Fail(failed, 0)] + es;
    }
  }

  /** Whatever the limits, some run reaches the bound within one window. */
  lemma BoundIsReached(ip: string, l: Limits) returns (es: seq<Step>)
    requires Sensible(l)
    ensures Legal(NewSite(0), es, l)
    ensures |Recent(IpFailures(AfterAll(NewSite(0), es, l).log, ip), -l.window)| == Bound(l)
  {
    assert NewSite(0) == Reached(ip, 0, 0) by {
      assert Flying(ip, 0, 0) == map[] && Failures(ip, 0) == [];
    }
    es := Onward(ip, 0, 0, l);
    FailuresCount(ip, Bound(l));
    AllRecent(IpFailures(Failures(ip, Bound(l)), ip), -l.window);
    hide Recent, IpFailures, Failures, Legal, AfterAll;
  }
}
