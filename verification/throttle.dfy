/**
  The login throttle: a cache of recent failures that answers exactly as the full
  record of failures would.
 */
module Throttle {
  import opened Wrappers
  import opened Text

  /** Instants and durations in nanoseconds. */
  type Time = int

  const MINUTE: Time := 60_000_000_000

  // --- keys ---

  function UserKey(ip: string, username: string): string { "u|" + ip + "|" + username }

  function IpKey(ip: string): string { "ip|" + ip }

  // --- the full record ---

  datatype Event = Failure(ip: string, username: string, at: Time) | Success(ip: string, username: string)

  /** Failures of the user at the address since the user last signed in from there. */
  function UserFailures(log: seq<Event>, ip: string, username: string): seq<Time> {
    if log == [] then []
    else
      var before := UserFailures(log[..|log| - 1], ip, username);
      var e := log[|log| - 1];
      if e.ip != ip || e.username != username then before
      else if e.Failure? then before + [e.at] else []
  }

  /** All failures from the address. */
  function IpFailures(log: seq<Event>, ip: string): seq<Time> {
    if log == [] then []
    else
      var before := IpFailures(log[..|log| - 1], ip);
      var e := log[|log| - 1];
      if e.Failure? && e.ip == ip then before + [e.at] else before
  }

  /** What was recorded under a key since the key was last cleared. */
  function KeyTimes(log: seq<Event>, key: string): seq<Time> {
    if log == [] then []
    else
      var before := KeyTimes(log[..|log| - 1], key);
      var e := log[|log| - 1];
      if e.Failure? && (key == UserKey(e.ip, e.username) || key == IpKey(e.ip)) then before + [e.at]
      else if e.Success? && key == UserKey(e.ip, e.username) then []
      else before
  }

  function Recent(times: seq<Time>, cutoff: Time): seq<Time> {
    if times == [] then []
    else
      var last := times[|times| - 1];
      Recent(times[..|times| - 1], cutoff) + if last > cutoff then [last] else []
  }

  /** The record never goes back in time. */
  ghost predicate Ordered(log: seq<Event>, now: Time) {
    && (forall i | 0 <= i < |log| && log[i].Failure? :: log[i].at <= now)
    && (forall i, j | 0 <= i < j < |log| && log[i].Failure? && log[j].Failure? :: log[i].at <= log[j].at)
  }

  predicate Sorted(times: seq<Time>) {
    forall i, j | 0 <= i < j < |times| :: times[i] <= times[j]
  }

  ghost predicate UpTo(times: seq<Time>, now: Time) {
    Sorted(times) && forall i | 0 <= i < |times| :: times[i] <= now
  }

  lemma {:induction false} KeyTimesSorted(log: seq<Event>, key: string, now: Time)
    requires Ordered(log, now)
    ensures UpTo(KeyTimes(log, key), now)
    ensures |log| > 0 && log[|log| - 1].Failure? ==> UpTo(KeyTimes(log, key), log[|log| - 1].at)
  {
    if log != [] {
      hide UserKey, IpKey;
      var front, e := log[..|log| - 1], log[|log| - 1];
      KeyTimesSorted(front, key, if e.Failure? then e.at else now);
    }
  }

  /** Everything up to the cut is over by `cutoff`, everything from there on is not. */
  ghost predicate CutAt(times: seq<Time>, n: nat, cutoff: Time) {
    && n <= |times|
    && (forall i | 0 <= i < n :: times[i] <= cutoff)
    && (forall i | n <= i < |times| :: times[i] > cutoff)
  }

  /** Recent failures are the last ones. */
  lemma {:induction false} RecentIsSuffix(times: seq<Time>, cutoff: Time)
    requires Sorted(times)
    ensures |Recent(times, cutoff)| <= |times|
    ensures var n := |times| - |Recent(times, cutoff)|; Recent(times, cutoff) == times[n..] && CutAt(times, n, cutoff)
  {
    if times != [] {
      var front, last := times[..|times| - 1], times[|times| - 1];
      RecentIsSuffix(front, cutoff);
      var n := |front| - |Recent(front, cutoff)|;
      assert n == |front| || front[n] > cutoff;
      if last > cutoff {
        assert front[n..] + [last] == times[n..];
      } else {
        assert n == |front|;
        assert Recent(times, cutoff) == [];
      }
    }
  }

  lemma OneCut(times: seq<Time>, a: nat, b: nat, cutoff: Time)
    requires CutAt(times, a, cutoff) && CutAt(times, b, cutoff)
    ensures a == b
  {
    assert a == |times| || times[a] > cutoff;
    assert b == |times| || times[b] > cutoff;
  }

  lemma CutLater(times: seq<Time>, n: nat, m: nat, cutoff: Time)
    requires n <= |times| && (forall i | 0 <= i < n :: times[i] <= cutoff) && CutAt(times[n..], m, cutoff)
    ensures CutAt(times, n + m, cutoff)
  {
    assert forall i | n <= i < |times| :: times[i] == times[n..][i - n];
  }

  // --- what the cache holds ---

  function Stored(entries: map<string, seq<Time>>, key: string): seq<Time> {
    if key in entries then entries[key] else []
  }

  /** `stored` is `full` without some failures that were over by `horizon`. */
  ghost predicate Keeps(stored: seq<Time>, full: seq<Time>, horizon: Time) {
    var n := |full| - |stored|;
    0 <= n && stored == full[n..] && forall i | 0 <= i < n :: full[i] <= horizon
  }

  ghost predicate Faithful(entries: map<string, seq<Time>>, log: seq<Event>, horizon: Time) {
    forall key :: Keeps(Stored(entries, key), KeyTimes(log, key), horizon)
  }

  ghost predicate NoneEmpty(entries: map<string, seq<Time>>) {
    forall key | key in entries :: entries[key] != []
  }

  ghost predicate AllAfter(times: seq<Time>, floor: Time) {
    forall i | 0 <= i < |times| :: times[i] > floor
  }

  /** Trimming what is kept gives what trimming everything would. */
  lemma KeptRecent(stored: seq<Time>, full: seq<Time>, horizon: Time, cutoff: Time)
    requires Keeps(stored, full, horizon) && Sorted(full) && horizon <= cutoff
    ensures Recent(stored, cutoff) == Recent(full, cutoff)
    ensures Keeps(Recent(stored, cutoff), full, cutoff)
  {
    SuffixSorted(stored, full, horizon);
    RecentIsSuffix(full, cutoff);
    RecentIsSuffix(stored, cutoff);
    var n, m, k := |full| - |stored|, |stored| - |Recent(stored, cutoff)|, |full| - |Recent(full, cutoff)|;
    assert stored == full[n..];
    DroppedEarlier(stored, full, horizon, cutoff);
    hide *;
    SameCut(full, n, m, k, cutoff);
    KeepsCut(full, k, cutoff);
  }

  lemma DroppedEarlier(stored: seq<Time>, full: seq<Time>, horizon: Time, cutoff: Time)
    requires Keeps(stored, full, horizon) && horizon <= cutoff
    ensures forall i | 0 <= i < |full| - |stored| :: full[i] <= cutoff
  {}

  lemma KeepsCut(full: seq<Time>, k: nat, cutoff: Time)
    requires CutAt(full, k, cutoff)
    ensures Keeps(full[k..], full, cutoff)
  {}

  lemma SuffixSorted(stored: seq<Time>, full: seq<Time>, horizon: Time)
    requires Keeps(stored, full, horizon) && Sorted(full)
    ensures Sorted(stored)
  {}

  /** Cutting a suffix and cutting the whole leaves the same. */
  lemma SameCut(full: seq<Time>, n: nat, m: nat, k: nat, cutoff: Time)
    requires n <= |full| && (forall i | 0 <= i < n :: full[i] <= cutoff)
    requires CutAt(full[n..], m, cutoff) && CutAt(full, k, cutoff)
    ensures k == n + m && full[n..][m..] == full[k..]
  {
    CutLater(full, n, m, cutoff);
    OneCut(full, k, n + m, cutoff);
    hide CutAt;
  }

  lemma KeepsLater(stored: seq<Time>, full: seq<Time>, horizon: Time, later: Time)
    requires Keeps(stored, full, horizon) && horizon <= later
    ensures Keeps(stored, full, later)
  {}

  lemma KeepsMore(stored: seq<Time>, full: seq<Time>, horizon: Time, at: Time)
    requires Keeps(stored, full, horizon)
    ensures Keeps(stored + [at], full + [at], horizon)
  {}

  // --- how one trim and one new failure change the cache ---

  ghost predicate TrimmedTo(before: map<string, seq<Time>>, after: map<string, seq<Time>>, key: string, cutoff: Time) {
    && Stored(after, key) == Recent(Stored(before, key), cutoff)
    && (key in after ==> key in before && after[key] != [])
    && (forall k | k != key :: (k in after <==> k in before) && (k in after ==> after[k] == before[k]))
  }

  function Appended(entries: map<string, seq<Time>>, key: string, at: Time): map<string, seq<Time>> {
    entries[key := Stored(entries, key) + [at]]
  }

  lemma TrimKeepsFaithful(
      before: map<string, seq<Time>>, after: map<string, seq<Time>>, key: string, log: seq<Event>,
      now: Time, horizon: Time, cutoff: Time)
    requires TrimmedTo(before, after, key, cutoff) && Faithful(before, log, horizon)
    requires Ordered(log, now) && horizon <= cutoff
    ensures Faithful(after, log, cutoff)
    ensures Stored(after, key) == Recent(KeyTimes(log, key), cutoff)
  {
    hide KeyTimes, Recent, Keeps;
    forall k
      ensures Keeps(Stored(after, k), KeyTimes(log, k), cutoff)
    {
      KeyTimesSorted(log, k, now);
      assert Keeps(Stored(before, k), KeyTimes(log, k), horizon);
      if k == key {
        KeptRecent(Stored(before, k), KeyTimes(log, k), horizon, cutoff);
      } else {
        KeepsLater(Stored(before, k), KeyTimes(log, k), horizon, cutoff);
      }
    }
    KeyTimesSorted(log, key, now);
    KeptRecent(Stored(before, key), KeyTimes(log, key), horizon, cutoff);
  }

  /** Every stored failure is newer than `floor`. */
  ghost predicate AllNewer(entries: map<string, seq<Time>>, floor: Time) {
    forall key | key in entries :: AllAfter(entries[key], floor)
  }

  lemma {:induction false} RecentAfter(times: seq<Time>, cutoff: Time, floor: Time)
    ensures AllAfter(Recent(times, cutoff), cutoff)
    ensures AllAfter(times, floor) ==> AllAfter(Recent(times, cutoff), floor)
  {
    if times != [] { RecentAfter(times[..|times| - 1], cutoff, floor); }
  }

  lemma TrimKeepsNewer(before: map<string, seq<Time>>, after: map<string, seq<Time>>, key: string, cutoff: Time, floor: Time)
    requires TrimmedTo(before, after, key, cutoff) && AllNewer(before, floor)
    ensures AllNewer(after, floor)
  {
    hide Recent;
    RecentAfter(Stored(before, key), cutoff, floor);
  }

  lemma AppendedNewer(entries: map<string, seq<Time>>, key: string, at: Time, floor: Time)
    requires AllNewer(entries, floor) && at > floor
    ensures AllNewer(Appended(entries, key, at), floor)
  {}

  lemma KeysDiffer(ip: string, username: string, other: string)
    ensures UserKey(ip, username) != IpKey(other)
  {
    assert UserKey(ip, username)[0] == 'u' && IpKey(other)[0] == 'i';
  }

  lemma KeyTimesAfterFailure(log: seq<Event>, ip: string, username: string, at: Time, key: string)
    ensures KeyTimes(log + [Failure(ip, username, at)], key)
      == if key == UserKey(ip, username) || key == IpKey(ip) then KeyTimes(log, key) + [at] else KeyTimes(log, key)
  {
    hide UserKey, IpKey;
    var log' := log + [Failure(ip, username, at)];
    assert log'[..|log'| - 1] == log;
  }

  lemma KeyTimesAfterSuccess(log: seq<Event>, ip: string, username: string, key: string)
    ensures KeyTimes(log + [Success(ip, username)], key) == if key == UserKey(ip, username) then [] else KeyTimes(log, key)
  {
    hide UserKey, IpKey;
    var log' := log + [Success(ip, username)];
    assert log'[..|log'| - 1] == log;
  }

  lemma StoredAfterAppends(entries: map<string, seq<Time>>, uk: string, ik: string, at: Time, key: string)
    requires uk != ik
    ensures Stored(Appended(Appended(entries, uk, at), ik, at), key)
      == if key == uk || key == ik then Stored(entries, key) + [at] else Stored(entries, key)
  {}

  /** A failure is appended under both of its keys. */
  lemma AppendKeepsFaithful(
      entries: map<string, seq<Time>>, log: seq<Event>, ip: string, username: string, at: Time, horizon: Time)
    requires Faithful(entries, log, horizon)
    ensures Faithful(Appended(Appended(entries, UserKey(ip, username), at), IpKey(ip), at),
                     log + [Failure(ip, username, at)], horizon)
  {
    KeysDiffer(ip, username, ip);
    var uk, ik := UserKey(ip, username), IpKey(ip);
    hide UserKey, IpKey, Keeps, KeyTimes, Appended, Stored;
    forall k
      ensures Keeps(Stored(Appended(Appended(entries, uk, at), ik, at), k), KeyTimes(log + [Failure(ip, username, at)], k), horizon)
    {
      assert Keeps(Stored(entries, k), KeyTimes(log, k), horizon);
      KeyTimesAfterFailure(log, ip, username, at, k);
      StoredAfterAppends(entries, uk, ik, at, k);
      KeepsMore(Stored(entries, k), KeyTimes(log, k), horizon, at);
    }
  }

  lemma TrimThenAppend(
      before: map<string, seq<Time>>, after: map<string, seq<Time>>, key: string, cutoff: Time, other: string, at: Time)
    requires TrimmedTo(before, after, key, cutoff) && other != key
    ensures TrimmedTo(Appended(before, other, at), Appended(after, other, at), key, cutoff)
  {
    hide Recent;
  }

  lemma ClearKeepsFaithful(entries: map<string, seq<Time>>, log: seq<Event>, ip: string, username: string, horizon: Time)
    requires Faithful(entries, log, horizon)
    ensures Faithful(entries - {UserKey(ip, username)}, log + [Success(ip, username)], horizon)
  {
    var uk := UserKey(ip, username);
    hide UserKey, IpKey, Keeps, KeyTimes;
    forall k
      ensures Keeps(Stored(entries - {uk}, k), KeyTimes(log + [Success(ip, username)], k), horizon)
    {
      assert Keeps(Stored(entries, k), KeyTimes(log, k), horizon);
      KeyTimesAfterSuccess(log, ip, username, k);
      NothingKept(horizon);
    }
  }

  lemma NothingKept(horizon: Time)
    ensures Keeps([], [], horizon)
  {}

  lemma FaithfulLater(entries: map<string, seq<Time>>, log: seq<Event>, horizon: Time, later: Time)
    requires Faithful(entries, log, horizon) && horizon <= later
    ensures Faithful(entries, log, later)
  {
    hide KeyTimes, Keeps;
    forall k
      ensures Keeps(Stored(entries, k), KeyTimes(log, k), later)
    {
      assert Keeps(Stored(entries, k), KeyTimes(log, k), horizon);
      KeepsLater(Stored(entries, k), KeyTimes(log, k), horizon, later);
    }
  }

  ghost predicate Fresh(entries: map<string, seq<Time>>, lastSweep: Option<Time>, now: Time, window: Time) {
    match lastSweep
    case None => entries == map[]
    case Some(at) => at <= now && AllNewer(entries, at - window)
  }

  /** The cache agrees with the record; since the last sweep nothing older than one window before it is stored. */
  ghost predicate Sound(
      entries: map<string, seq<Time>>, lastSweep: Option<Time>, log: seq<Event>, now: Time, window: Time)
  {
    Ordered(log, now) && Faithful(entries, log, now - window) && NoneEmpty(entries) && Fresh(entries, lastSweep, now, window)
  }

  lemma SoundLater(
      entries: map<string, seq<Time>>, lastSweep: Option<Time>, log: seq<Event>, now: Time, later: Time, window: Time)
    requires Sound(entries, lastSweep, log, now, window) && now <= later
    ensures Sound(entries, lastSweep, log, later, window)
  {
    hide Faithful, AllNewer;
    FaithfulLater(entries, log, now - window, later - window);
  }

  lemma SoundTrimmed(
      before: map<string, seq<Time>>, after: map<string, seq<Time>>, key: string,
      lastSweep: Option<Time>, log: seq<Event>, now: Time, t: Time, window: Time)
    requires Sound(before, lastSweep, log, now, window) && TrimmedTo(before, after, key, t - window) && now <= t
    ensures Sound(after, lastSweep, log, t, window)
    ensures Stored(after, key) == Recent(KeyTimes(log, key), t - window)
  {
    hide Recent, KeyTimes, Faithful, AllNewer;
    TrimKeepsFaithful(before, after, key, log, now, now - window, t - window);
    if lastSweep.Some? { TrimKeepsNewer(before, after, key, t - window, lastSweep.value - window); }
  }

  lemma SoundCleared(
      entries: map<string, seq<Time>>, lastSweep: Option<Time>, log: seq<Event>, now: Time, window: Time, ip: string, username: string)
    requires Sound(entries, lastSweep, log, now, window)
    ensures Sound(entries - {UserKey(ip, username)}, lastSweep, log + [Success(ip, username)], now, window)
  {
    hide Faithful, UserKey;
    ClearKeepsFaithful(entries, log, ip, username, now - window);
  }

  // --- keys stand for what they name ---

  predicate Plain(ip: string) { '|' !in ip }

  ghost predicate PlainLog(log: seq<Event>) {
    forall i | 0 <= i < |log| :: Plain(log[i].ip)
  }

  lemma IpKeysDiffer(ip: string, ip': string)
    requires IpKey(ip) == IpKey(ip')
    ensures ip == ip'
  {
    assert IpKey(ip)[3..] == ip && IpKey(ip')[3..] == ip';
  }

  lemma BarSplits(a: string, b: string, a': string, b': string)
    requires Plain(a) && Plain(a') && a + "|" + b == a' + "|" + b'
    ensures a == a' && b == b'
  {
    BeforeCuts(a, b, '|');
    BeforeCuts(a', b', '|');
    assert (a + "|" + b)[|a| + 1..] == b && (a' + "|" + b')[|a'| + 1..] == b';
  }

  /** Addresses without a bar keep the keys of different users apart. */
  lemma UserKeysDiffer(ip: string, username: string, ip': string, username': string)
    requires Plain(ip) && Plain(ip') && UserKey(ip, username) == UserKey(ip', username')
    ensures ip == ip' && username == username'
  {
    assert UserKey(ip, username)[2..] == ip + "|" + username;
    assert UserKey(ip', username')[2..] == ip' + "|" + username';
    BarSplits(ip, username, ip', username');
  }

  /** Some other pair shares the key exactly when there is another bar at which to split it. */
  lemma KeysCollideExactly(ip: string, username: string)
    ensures (exists ip', username' :: (ip', username') != (ip, username) && UserKey(ip', username') == UserKey(ip, username))
      <==> !Plain(ip) || !Plain(username)
  {
    if !Plain(ip) {
      var i :| 0 <= i < |ip| && ip[i] == '|';
      var ip', username' := ip[..i], ip[i + 1..] + "|" + username;
      assert ip == ip[..i] + "|" + ip[i + 1..];
      assert UserKey(ip', username') == UserKey(ip, username);
      assert |ip'| < |ip|;
    } else if !Plain(username) {
      var i :| 0 <= i < |username| && username[i] == '|';
      var ip', username' := ip + "|" + username[..i], username[i + 1..];
      assert username == username[..i] + "|" + username[i + 1..];
      assert UserKey(ip', username') == UserKey(ip, username);
      assert |ip'| > |ip|;
    } else {
      forall ip', username' | UserKey(ip', username') == UserKey(ip, username)
        ensures (ip', username') == (ip, username)
      {
        OneBar(ip, username, ip', username');
        UserKeysDiffer(ip, username, ip', username');
      }
    }
  }

  lemma OneBar(ip: string, username: string, ip': string, username': string)
    requires Plain(ip) && Plain(username) && UserKey(ip', username') == UserKey(ip, username)
    ensures Plain(ip')
  {
    var s := UserKey(ip, username);
    assert forall i | 2 <= i < |s| && s[i] == '|' :: i == 2 + |ip|;
    assert s[2 + |ip'|] == '|';
    forall c | c in ip'
      ensures c != '|'
    {
      var i :| 0 <= i < |ip'| && ip'[i] == c;
      assert s[2 + i] == c;
    }
  }

  /** What is recorded under the keys of plain addresses is what was recorded for them. */
  lemma {:induction false} KeyTimesExact(log: seq<Event>, ip: string, username: string)
    ensures KeyTimes(log, IpKey(ip)) == IpFailures(log, ip)
    ensures PlainLog(log) && Plain(ip) ==> KeyTimes(log, UserKey(ip, username)) == UserFailures(log, ip, username)
  {
    if log != [] {
      var front, e := log[..|log| - 1], log[|log| - 1];
      KeyTimesExact(front, ip, username);
      KeysDiffer(e.ip, e.username, ip);
      KeysDiffer(ip, username, e.ip);
      if IpKey(ip) == IpKey(e.ip) { IpKeysDiffer(ip, e.ip); }
      if PlainLog(log) && Plain(ip) && UserKey(ip, username) == UserKey(e.ip, e.username) {
        UserKeysDiffer(ip, username, e.ip, e.username);
      }
      hide UserKey, IpKey;
    }
  }

  // --- the code ---

  /** A clock that never goes backwards; `now` is its last reading. */
  class Clock {
    var now: Time

    method Now() returns (t: Time)
      modifies this
      ensures old(now) <= now == t
    {
      var passed: nat :| true;
      now := now + passed;
      t := now;
    }
  }

  /** Keeps the elements after `cutoff`, at the front of the same array. */
  method FilterRecent(failures: array<Time>, cutoff: Time) returns (n: nat)
    modifies failures
    ensures n <= failures.Length && failures[..n] == Recent(old(failures[..]), cutoff)
  {
    n := 0;
    ghost var original := failures[..];
    for i := 0 to failures.Length
      invariant n <= i
      invariant failures[..n] == Recent(original[..i], cutoff)
      invariant forall j | i <= j < failures.Length :: failures[j] == original[j]
    {
      assert original[..i + 1][..i] == original[..i];
      var ts := failures[i];
      if ts > cutoff {
        failures[n] := ts;
        n := n + 1;
      }
    }
    assert original[..|original|] == original;
  }

  /** The answer of a checker that looks through the whole record, with one clock reading for each budget. */
  predicate Allowed(log: seq<Event>, ip: string, username: string, max: int, ipMax: int, window: Time, t: Time, t': Time) {
    && |Recent(UserFailures(log, ip, username), t - window)| < max
    && |Recent(IpFailures(log, ip), t' - window)| < ipMax
  }

  /** The rest of the window of the failure that uses up the budget; `t` and `t'` are the two clock readings. */
  function Wait(times: seq<Time>, limit: int, window: Time, t: Time, t': Time): Time
    requires limit > 0
  {
    var failures := Recent(times, t - window);
    if |failures| < limit then 0
    else
      var wait := window - (t' - failures[|failures| - limit]);
      if wait < 0 then 0 else wait
  }

  function Longer(a: Time, b: Time): Time { if a < b then b else a }

  class LoginThrottle {
    const max: int
    const ipMax: int
    const window: Time
    const clock: Clock
    var entries: map<string, seq<Time>>
    var lastSweep: Option<Time>
    ghost var log: seq<Event>

    ghost predicate Valid()
      reads this, clock
    {
      max > 0 && ipMax > 0 && window > 0 && Sound(entries, lastSweep, log, clock.now, window)
    }

    constructor (max: int, ipMax: int, window: Time, clock: Clock)
      ensures Valid() && log == [] && entries == map[] && this.clock == clock
      ensures this.max == if max <= 0 then 10 else max
      ensures this.ipMax == if ipMax <= 0 then 3 * this.max else ipMax
      ensures this.window == if window <= 0 then 60 * 1_000_000_000 else window
    {
      var m, w := max, window;
      if max <= 0 { m := 10; }
      this.max := m;
      var i := ipMax;
      if ipMax <= 0 { i := 3 * m; }
      this.ipMax := i;
      if window <= 0 { w := MINUTE; }
      this.window := w;
      this.clock := clock;
      entries := map[];
      lastSweep := None;
      log := [];
    }

    /** Drops what is over for one key. */
    method Trim(key: string) returns (ghost t: Time)
      modifies this`entries, clock
      ensures old(clock.now) <= t == clock.now
      ensures TrimmedTo(old(entries), entries, key, t - window)
    {
      t := clock.now;
      if key !in entries { return; }
      var failures := entries[key];
      var now := clock.Now();
      t := now;
      var cutoff := now - window;
      var buffer := new Time[|failures|](i requires 0 <= i < |failures| => failures[i]);
      assert buffer[..] == failures;
      var n := FilterRecent(buffer, cutoff);
      if n == 0 {
        entries := entries - {key};
        return;
      }
      entries := entries[key := buffer[..n]];
    }

    /** Answers like the full record; `t` and `t'` are the clock readings for the two budgets. */
    method Allow(ip: string, username: string) returns (ok: bool, ghost t: Time, ghost t': Time)
      requires Valid()
      modifies this`entries, clock
      ensures Valid() && old(clock.now) <= t <= t' == clock.now
      ensures ok <==>
        && |Recent(KeyTimes(log, UserKey(ip, username)), t - window)| < max
        && |Recent(KeyTimes(log, IpKey(ip)), t' - window)| < ipMax
      ensures PlainLog(log) && Plain(ip) ==> ok == Allowed(log, ip, username, max, ipMax, window, t, t')
    {
      KeyTimesExact(log, ip, username);
      KeysDiffer(ip, username, ip);
      var uk, ik := UserKey(ip, username), IpKey(ip);
      hide Recent, KeyTimes, UserKey, IpKey, Sound, PlainLog, Plain, UserFailures, IpFailures;
      t := TrimOne(uk);
      t' := TrimOne(ik);
      ok := |Stored(entries, uk)| < max && |Stored(entries, ik)| < ipMax;
    }

    /** A trim on its own. */
    method TrimOne(key: string) returns (ghost t: Time)
      requires Valid()
      modifies this`entries, clock
      ensures Valid() && old(clock.now) <= t == clock.now
      ensures Stored(entries, key) == Recent(KeyTimes(log, key), t - window)
      ensures forall k | k != key :: Stored(entries, k) == Stored(old(entries), k)
    {
      hide Recent, KeyTimes, Sound;
      ghost var before := clock.now;
      t := Trim(key);
      SoundTrimmed(old(entries), entries, key, lastSweep, log, before, t, window);
    }

    method Success(ip: string, username: string)
      requires Valid()
      modifies this`entries, this`log
      ensures Valid() && log == old(log) + [Event.Success(ip, username)]
    {
      hide Sound, UserKey;
      SoundCleared(entries, lastSweep, log, clock.now, window, ip, username);
      entries := entries - {UserKey(ip, username)};
      log := log + [Event.Success(ip, username)];
    }

    /** One budget's waiting time, from two clock readings. */
    method WaitFor(key: string, limit: int) returns (wait: Time, ghost t: Time, ghost t': Time)
      requires Valid() && limit > 0
      modifies this`entries, clock
      ensures Valid() && old(clock.now) <= t <= t' == clock.now
      ensures wait == Wait(KeyTimes(log, key), limit, window, t, t')
    {
      hide Recent, KeyTimes, Sound;
      t := TrimOne(key);
      t' := t;
      var failures := Stored(entries, key);
      if |failures| < limit { return 0, t, t'; }
      var now := clock.Now();
      t' := now;
      SoundLater(entries, lastSweep, log, t, now, window);
      wait := window - (now - failures[|failures| - limit]);
      if wait < 0 { wait := 0; }
    }

    /** The longer of the two waits; the readings are those of the user's budget and then of the address's. */
    method RetryAfter(ip: string, username: string)
      returns (wait: Time, ghost t: Time, ghost t': Time, ghost u: Time, ghost u': Time)
      requires Valid()
      modifies this`entries, clock
      ensures Valid() && old(clock.now) <= t <= t' <= u <= u' == clock.now
      ensures wait == Longer(Wait(KeyTimes(log, UserKey(ip, username)), max, window, t, t'),
                             Wait(KeyTimes(log, IpKey(ip)), ipMax, window, u, u'))
      ensures PlainLog(log) && Plain(ip) ==>
        wait == Longer(Wait(UserFailures(log, ip, username), max, window, t, t'),
                       Wait(IpFailures(log, ip), ipMax, window, u, u'))
    {
      KeyTimesExact(log, ip, username);
      hide Recent, KeyTimes, UserKey, IpKey, Wait, UserFailures, IpFailures, Sound, PlainLog, Plain;
      var user, address: Time;
      user, t, t' := WaitFor(UserKey(ip, username), max);
      address, u, u' := WaitFor(IpKey(ip), ipMax);
      wait := Longer(user, address);
    }

    /** At most once per window, trims every key; the keys come in any order. */
    method Sweep(at: Time)
      requires max > 0 && ipMax > 0 && window > 0
      requires Ordered(log, clock.now) && Faithful(entries, log, clock.now - window) && NoneEmpty(entries)
      requires at <= clock.now
      requires lastSweep.Some? ==> lastSweep.value <= at && AllNewer(entries, lastSweep.value - window)
      modifies this`entries, this`lastSweep, clock
      ensures Valid() && old(clock.now) <= clock.now
      ensures AllNewer(entries, at - 2 * window)
    {
      hide KeyTimes, Recent, AllAfter, Faithful, Ordered;
      if lastSweep.Some? && at - lastSweep.value < window {
        NewerStill(entries, lastSweep.value - window, at - 2 * window);
        return;
      }
      lastSweep := Some(at);
      var rest := entries.Keys;
      while rest != {}
        invariant lastSweep == Some(at) && old(clock.now) <= clock.now
        invariant Ordered(log, clock.now) && Faithful(entries, log, clock.now - window) && NoneEmpty(entries)
        invariant forall key | key in entries :: key in rest || AllAfter(entries[key], at - window)
        decreases |rest|
      {
        var k :| k in rest;
        rest := rest - {k};
        ghost var before, now := entries, clock.now;
        ghost var t := Trim(k);
        TrimKeepsFaithful(before, entries, k, log, now, now - window, t - window);
        OrderedLater(log, now, t);
        RecentNewer(Stored(before, k), t - window, at - window);
      }
      NewerStill(entries, at - window, at - 2 * window);
    }

    /** Appends a failure under one key and trims it. */
    method Note(key: string, at: Time) returns (ghost t: Time)
      modifies this`entries, clock
      ensures old(clock.now) <= t == clock.now
      ensures TrimmedTo(Appended(old(entries), key, at), entries, key, t - window)
    {
      hide TrimmedTo;
      entries := entries[key := Stored(entries, key) + [at]];
      t := Trim(key);
    }

    /** Records a failure under both keys; nothing older than two windows is left. */
    method Failed(ip: string, username: string) returns (ghost now: Time)
      requires Valid()
      modifies this, clock
      ensures Valid() && old(clock.now) <= now <= clock.now
      ensures log == old(log) + [Failure(ip, username, now)]
      ensures AllNewer(entries, now - 2 * window)
    {
      hide Sound, UserKey, IpKey, Faithful, KeyTimes, Recent, Appended, AllNewer, TrimmedTo, Ordered, NoneEmpty;
      ghost var before := clock.now;
      var at := clock.Now();
      now := at;
      SoundLater(entries, lastSweep, log, before, now, window);
      log := log + [Failure(ip, username, now)];
      ghost var e0 := entries;
      ghost var t := Note(UserKey(ip, username), at);
      ghost var e1 := entries;
      ghost var t' := Note(IpKey(ip), at);
      FailureRecorded(e0, e1, entries, lastSweep, old(log), ip, username, now, t, t', window);
      Sweep(at);
    }
  }

  lemma OrderedLater(log: seq<Event>, now: Time, later: Time)
    requires Ordered(log, now) && now <= later
    ensures Ordered(log, later)
  {}

  lemma OrderedMore(log: seq<Event>, ip: string, username: string, now: Time)
    requires Ordered(log, now)
    ensures Ordered(log + [Failure(ip, username, now)], now)
  {}

  /** Both rounds of append and trim taken together. */
  lemma FailureRecorded(
      e0: map<string, seq<Time>>, e1: map<string, seq<Time>>, e2: map<string, seq<Time>>, lastSweep: Option<Time>,
      log: seq<Event>, ip: string, username: string, now: Time, t: Time, t': Time, window: Time)
    requires window > 0 && Sound(e0, lastSweep, log, now, window) && now <= t <= t'
    requires TrimmedTo(Appended(e0, UserKey(ip, username), now), e1, UserKey(ip, username), t - window)
    requires TrimmedTo(Appended(e1, IpKey(ip), now), e2, IpKey(ip), t' - window)
    ensures var log' := log + [Failure(ip, username, now)];
      Ordered(log', t') && Faithful(e2, log', t' - window) && NoneEmpty(e2)
    ensures lastSweep.Some? ==> lastSweep.value <= now && AllNewer(e2, lastSweep.value - window)
  {
    hide UserKey, IpKey, Faithful, KeyTimes, Recent, Appended, AllNewer, TrimmedTo, Ordered, NoneEmpty;
    var uk, ik := UserKey(ip, username), IpKey(ip);
    var log' := log + [Failure(ip, username, now)];
    KeysDiffer(ip, username, ip);
    OrderedMore(log, ip, username, now);
    OrderedLater(log', now, t');
    AppendKeepsFaithful(e0, log, ip, username, now, now - window);
    RecordKeeps(e0, Appended(e0, uk, now), e1, Appended(e1, ik, now), e2, uk, ik, log', now, t, t', window);
    if lastSweep.Some? {
      RecordKeepsNewer(e0, Appended(e0, uk, now), e1, Appended(e1, ik, now), e2, uk, ik, now,
                       t - window, t' - window, lastSweep.value - window);
    }
  }

  lemma NewerStill(entries: map<string, seq<Time>>, floor: Time, floor': Time)
    requires AllNewer(entries, floor) && floor' <= floor
    ensures AllNewer(entries, floor')
  {}

  lemma RecentNewer(times: seq<Time>, cutoff: Time, floor: Time)
    requires floor <= cutoff
    ensures AllAfter(Recent(times, cutoff), floor)
  {
    RecentAfter(times, cutoff, floor);
  }

  /** The two rounds of append and trim that record a failure. */
  lemma RecordKeeps(
      e0: map<string, seq<Time>>, e1: map<string, seq<Time>>, e2: map<string, seq<Time>>, e3: map<string, seq<Time>>,
      e4: map<string, seq<Time>>, uk: string, ik: string, log: seq<Event>, now: Time, t: Time, t': Time, window: Time)
    requires uk != ik && NoneEmpty(e0) && Ordered(log, now) && now <= t <= t'
    requires e1 == Appended(e0, uk, now) && TrimmedTo(e1, e2, uk, t - window)
    requires e3 == Appended(e2, ik, now) && TrimmedTo(e3, e4, ik, t' - window)
    requires Faithful(Appended(e1, ik, now), log, now - window)
    ensures Faithful(e4, log, t' - window) && NoneEmpty(e4)
  {
    hide Recent, Faithful, Ordered;
    TrimThenAppend(e1, e2, uk, t - window, ik, now);
    OrderedLater(log, now, t);
    TrimKeepsFaithful(Appended(e1, ik, now), e3, uk, log, now, now - window, t - window);
    TrimKeepsFaithful(e3, e4, ik, log, now, t - window, t' - window);
    RoundsKeepNoneEmpty(e0, e1, e2, e3, e4, uk, ik, now, t - window, t' - window);
    hide TrimmedTo, Appended, NoneEmpty;
  }

  lemma RoundsKeepNoneEmpty(
      e0: map<string, seq<Time>>, e1: map<string, seq<Time>>, e2: map<string, seq<Time>>, e3: map<string, seq<Time>>,
      e4: map<string, seq<Time>>, uk: string, ik: string, now: Time, cutoff: Time, cutoff': Time)
    requires NoneEmpty(e0)
    requires e1 == Appended(e0, uk, now) && TrimmedTo(e1, e2, uk, cutoff)
    requires e3 == Appended(e2, ik, now) && TrimmedTo(e3, e4, ik, cutoff')
    ensures NoneEmpty(e4)
  {
    hide Recent, Stored;
  }

  lemma RecordKeepsNewer(
      e0: map<string, seq<Time>>, e1: map<string, seq<Time>>, e2: map<string, seq<Time>>, e3: map<string, seq<Time>>,
      e4: map<string, seq<Time>>, uk: string, ik: string, now: Time, cutoff: Time, cutoff': Time, floor: Time)
    requires AllNewer(e0, floor) && now > floor
    requires e1 == Appended(e0, uk, now) && TrimmedTo(e1, e2, uk, cutoff)
    requires e3 == Appended(e2, ik, now) && TrimmedTo(e3, e4, ik, cutoff')
    ensures AllNewer(e4, floor)
  {
    hide Appended, TrimmedTo, AllNewer;
    AppendedNewer(e0, uk, now, floor);
    TrimKeepsNewer(e1, e2, uk, cutoff, floor);
    AppendedNewer(e2, ik, now, floor);
    TrimKeepsNewer(e3, e4, ik, cutoff', floor);
  }
}
