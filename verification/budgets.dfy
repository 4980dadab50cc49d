/**
  What the throttle promises: exact waiting times, bounded memory, and a bound on the
  failures of concurrent login attempts.
 */
module Budgets {
  import opened Throttle

  // --- what counts against a budget ---

  /** The failures of the user at the address after `cutoff` that no later success has cleared, by position in the record. */
  function UserTries(log: seq<Event>, ip: string, username: string, cutoff: Time): set<nat> {
    set i: nat | i < |log| && log[i].Failure? && log[i].ip == ip && log[i].username == username && log[i].at > cutoff
      && forall j | i < j < |log| :: log[j] != Success(ip, username)
  }

  /** All failures from the address after `cutoff`. */
  function AddressTries(log: seq<Event>, ip: string, cutoff: Time): set<nat> {
    set i: nat | i < |log| && log[i].Failure? && log[i].ip == ip && log[i].at > cutoff
  }

  lemma TriesAfter(log: seq<Event>, e: Event, ip: string, username: string, cutoff: Time)
    ensures UserTries(log + [e], ip, username, cutoff) ==
      (if e == Success(ip, username) then {} else UserTries(log, ip, username, cutoff))
      + (if e.Failure? && e.ip == ip && e.username == username && e.at > cutoff then {|log|} else {})
    ensures AddressTries(log + [e], ip, cutoff)
      == AddressTries(log, ip, cutoff) + if e.Failure? && e.ip == ip && e.at > cutoff then {|log|} else {}
  {
    var log' := log + [e];
    assert log'[|log|] == e;
    assert forall i | 0 <= i < |log| :: log'[i] == log[i];
  }

  lemma RecentCount(times: seq<Time>, at: Time, cutoff: Time)
    ensures |Recent(times + [at], cutoff)| == |Recent(times, cutoff)| + if at > cutoff then 1 else 0
  {
    assert (times + [at])[..|times|] == times;
  }

  lemma NothingRecent(cutoff: Time)
    ensures Recent([], cutoff) == []
  {}

  lemma NotCountedYet(log: seq<Event>, ip: string, username: string, cutoff: Time)
    ensures |log| !in UserTries(log, ip, username, cutoff) && |log| !in AddressTries(log, ip, cutoff)
  {}

  lemma OneMoreTry(tries: set<nat>, i: nat)
    requires i !in tries
    ensures |tries + {i}| == |tries| + 1 && tries + {} == tries
  {}

  lemma UserTriesGrow(log: seq<Event>, e: Event, ip: string, username: string, cutoff: Time)
    ensures |UserTries(log + [e], ip, username, cutoff)| ==
      (if e == Success(ip, username) then 0 else |UserTries(log, ip, username, cutoff)|)
      + (if e.Failure? && e.ip == ip && e.username == username && e.at > cutoff then 1 else 0)
    ensures |AddressTries(log + [e], ip, cutoff)|
      == |AddressTries(log, ip, cutoff)| + if e.Failure? && e.ip == ip && e.at > cutoff then 1 else 0
  {
    var tries, all := UserTries(log, ip, username, cutoff), AddressTries(log, ip, cutoff);
    NotCountedYet(log, ip, username, cutoff);
    hide *;
    TriesAfter(log, e, ip, username, cutoff);
    OneMoreTry(tries, |log|);
    OneMoreTry(all, |log|);
    OneMoreTry({}, |log|);
  }

  lemma UserFailuresMore(log: seq<Event>, e: Event, ip: string, username: string)
    ensures UserFailures(log + [e], ip, username) ==
      if e.ip != ip || e.username != username then UserFailures(log, ip, username)
      else if e.Failure? then UserFailures(log, ip, username) + [e.at] else []
    ensures IpFailures(log + [e], ip) == if e.Failure? && e.ip == ip then IpFailures(log, ip) + [e.at] else IpFailures(log, ip)
  {
    assert (log + [e])[..|log|] == log;
  }

  lemma {:induction false} TriesCounted(log: seq<Event>, ip: string, username: string, cutoff: Time)
    ensures |Recent(UserFailures(log, ip, username), cutoff)| == |UserTries(log, ip, username, cutoff)|
    ensures |Recent(IpFailures(log, ip), cutoff)| == |AddressTries(log, ip, cutoff)|
  {
    if log != [] {
      var front, e := log[..|log| - 1], log[|log| - 1];
      assert log == front + [e];
      hide *;
      TriesCounted(front, ip, username, cutoff);
      UserTriesGrow(front, e, ip, username, cutoff);
      UserFailuresMore(front, e, ip, username);
      if e.Failure? {
        RecentCount(UserFailures(front, ip, username), e.at, cutoff);
        RecentCount(IpFailures(front, ip), e.at, cutoff);
      }
      NothingRecent(cutoff);
    }
  }

  /** An attempt is allowed exactly while both budgets last: fewer such failures than `max` of the user, fewer than `ipMax` from the address. */
  lemma AllowedExactly(
      log: seq<Event>, ip: string, username: string, max: int, ipMax: int, window: Time, t: Time, t': Time)
    ensures Allowed(log, ip, username, max, ipMax, window, t, t') <==>
      |UserTries(log, ip, username, t - window)| < max && |AddressTries(log, ip, t' - window)| < ipMax
  {
    TriesCounted(log, ip, username, t - window);
    TriesCounted(log, ip, username, t' - window);
  }

  // --- waiting times ---

  /** A budget is free exactly when the failure that would use it up is over. */
  lemma BudgetFree(times: seq<Time>, limit: int, cutoff: Time)
    requires Sorted(times) && limit > 0
    ensures |Recent(times, cutoff)| < limit <==> |times| < limit || times[|times| - limit] <= cutoff
  {
    RecentIsSuffix(times, cutoff);
    hide Recent;
  }

  /** Once nothing more is recorded, the budget is free at `u` exactly from the end of the wait on. */
  lemma WaitExact(times: seq<Time>, limit: int, window: Time, t: Time, t': Time, u: Time)
    requires UpTo(times, t) && limit > 0 && window > 0 && t <= t' <= u
    ensures Wait(times, limit, window, t, t') >= 0
    ensures |Recent(times, u - window)| < limit <==> u >= t' + Wait(times, limit, window, t, t')
  {
    BudgetFree(times, limit, t - window);
    BudgetFree(times, limit, u - window);
    RecentIsSuffix(times, t - window);
    hide Recent, Sorted;
  }

  lemma {:induction false} FailuresSorted(log: seq<Event>, ip: string, username: string, now: Time)
    requires Ordered(log, now)
    ensures UpTo(UserFailures(log, ip, username), now) && UpTo(IpFailures(log, ip), now)
    ensures |log| > 0 && log[|log| - 1].Failure? ==>
      UpTo(UserFailures(log, ip, username), log[|log| - 1].at) && UpTo(IpFailures(log, ip), log[|log| - 1].at)
  {
    if log != [] {
      var front, e := log[..|log| - 1], log[|log| - 1];
      assert log == front + [e];
      FailuresSorted(front, ip, username, if e.Failure? then e.at else now);
      UserFailuresMore(front, e, ip, username);
      hide UserFailures, IpFailures;
    }
  }

  /**
    The wait that RetryAfter computes from readings t <= t' <= u <= u', and a later Allow
    with readings v <= v': allowed once the wait has passed since the last reading, and
    refused before it has passed since the second.
   */
  lemma RetryAfterBounds(
      log: seq<Event>, ip: string, username: string, max: int, ipMax: int, window: Time,
      t: Time, t': Time, u: Time, u': Time, v: Time, v': Time)
    requires Ordered(log, t) && max > 0 && ipMax > 0 && window > 0 && t <= t' <= u <= u' <= v <= v'
    ensures var d := Longer(Wait(UserFailures(log, ip, username), max, window, t, t'),
                            Wait(IpFailures(log, ip), ipMax, window, u, u'));
      && d >= 0
      && (v >= u' + d ==> Allowed(log, ip, username, max, ipMax, window, v, v'))
      && (v' < t' + d ==> !Allowed(log, ip, username, max, ipMax, window, v, v'))
  {
    FailuresSorted(log, ip, username, t);
    assert UpTo(IpFailures(log, ip), u);
    WaitExact(UserFailures(log, ip, username), max, window, t, t', v);
    WaitExact(IpFailures(log, ip), ipMax, window, u, u', v');
    hide Wait, Recent, UserFailures, IpFailures, Ordered;
  }

  /** Taken at one instant: refused throughout [t, t + d), allowed from t + d on, and d is 0 exactly when allowed. */
  lemma RetryAfterExact(
      log: seq<Event>, ip: string, username: string, max: int, ipMax: int, window: Time, t: Time, v: Time)
    requires Ordered(log, t) && max > 0 && ipMax > 0 && window > 0 && t <= v
    ensures var d := Longer(Wait(UserFailures(log, ip, username), max, window, t, t),
                            Wait(IpFailures(log, ip), ipMax, window, t, t));
      && (Allowed(log, ip, username, max, ipMax, window, v, v) <==> v >= t + d)
      && (d == 0 <==> Allowed(log, ip, username, max, ipMax, window, t, t))
  {
    RetryAfterBounds(log, ip, username, max, ipMax, window, t, t, t, t, v, v);
    RetryAfterBounds(log, ip, username, max, ipMax, window, t, t, t, t, t, t);
    hide Wait, Allowed;
  }

  // --- memory ---

  function CountAfter(log: seq<Event>, floor: Time): nat {
    if log == [] then 0
    else
      var e := log[|log| - 1];
      CountAfter(log[..|log| - 1], floor) + if e.Failure? && e.at > floor then 1 else 0
  }

  function RecentKeys(log: seq<Event>, floor: Time): set<string> {
    if log == [] then {}
    else
      var e := log[|log| - 1];
      RecentKeys(log[..|log| - 1], floor)
      + if e.Failure? && e.at > floor then {UserKey(e.ip, e.username), IpKey(e.ip)} else {}
  }

  lemma {:induction false} RecentKeysCount(log: seq<Event>, floor: Time)
    ensures |RecentKeys(log, floor)| <= 2 * CountAfter(log, floor)
  {
    if log != [] {
      hide UserKey, IpKey;
      RecentKeysCount(log[..|log| - 1], floor);
      var e := log[|log| - 1];
      var before := RecentKeys(log[..|log| - 1], floor);
      UnionSize(before, {UserKey(e.ip, e.username), IpKey(e.ip)});
      assert before + {} == before;
    }
  }

  lemma UnionSize<T>(a: set<T>, b: set<T>)
    ensures |a + b| <= |a| + |b|
  {
    assert |a + b| == |a| + |b| - |a * b|;
  }

  lemma {:induction false} RecentTimeRecentKey(log: seq<Event>, key: string, floor: Time, i: nat)
    requires i < |KeyTimes(log, key)| && KeyTimes(log, key)[i] > floor
    ensures key in RecentKeys(log, floor)
  {
    hide UserKey, IpKey;
    var front := log[..|log| - 1];
    if i < |KeyTimes(front, key)| { RecentTimeRecentKey(front, key, floor, i); }
  }

  lemma {:induction false} SubsetSize<T>(a: set<T>, b: set<T>)
    requires a <= b
    ensures |a| <= |b|
  {
    if a != {} {
      var x :| x in a;
      SubsetSize(a - {x}, b - {x});
    }
  }

  /** Each key holds a failure newer than `floor`, and each failure is held under two keys. */
  lemma MemoryBound(throttle: LoginThrottle, floor: Time)
    requires throttle.Valid() && AllNewer(throttle.entries, floor)
    ensures |throttle.entries.Keys| <= 2 * CountAfter(throttle.log, floor)
  {
    var entries, log := throttle.entries, throttle.log;
    forall key | key in entries
      ensures key in RecentKeys(log, floor)
    {
      hide KeyTimes, RecentKeys;
      var full := KeyTimes(log, key);
      assert Keeps(Stored(entries, key), full, throttle.clock.now - throttle.window);
      var last := |entries[key]| - 1;
      assert entries[key][last] == full[|full| - 1] && entries[key][last] > floor;
      RecentTimeRecentKey(log, key, floor, |full| - 1);
    }
    SubsetSize(entries.Keys, RecentKeys(log, floor));
    RecentKeysCount(log, floor);
  }
}
