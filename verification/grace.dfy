/**
  How far behind the clock purges must stay so that nobody can tell they ran.

  A code lives 5 minutes and its request 30, and a request has place for one code.
  Purging an expired code of a request that still lives frees that place.
 */
module Grace {
  import opened Wrappers
  import opened Schema
  import opened Calls
  import opened Interleaving
  import opened Purging
  import opened Twins
  import opened Simulation

  const NEW_SITE := Site(NEW_WORLD, {}, {}, map[])

  /**
    Whatever calls run, statement by statement, and whenever purges run among them: the
    same calls are possible without the purges, and their answers agree.
   */
  ghost predicate Unobservable(grace: Time) {
    forall es | AllPossible(NEW_SITE, es, grace) ::
      && AllPossible(NEW_SITE, Unpurged(es, {}), grace)
      && AnswersAgree(Ran(NEW_SITE, es, grace), Ran(NEW_SITE, Unpurged(es, {}), grace))
  }

  lemma NewSitesAreTwins(grace: Time)
    ensures TwinSites(NEW_SITE, NEW_SITE, {}, grace)
  {
    AlikeItself(EMPTY_DB, 0);
    hide Alike;
    EmptyIsHealthy();
    EmptyHasIds();
    hide Healthy, Identities.Ids;
  }

  lemma EmptyIsHealthy()
    ensures Healthy(EMPTY_DB, 0)
  {}

  lemma EmptyHasIds()
    ensures Identities.Ids(NEW_WORLD)
  {}

  lemma SafeGraceSuffices(grace: Time)
    requires grace >= SAFE_GRACE
    ensures Unobservable(grace)
  {
    NewSitesAreTwins(grace);
    hide TwinSites, AllPossible, AnswersAgree, Ran, Unpurged;
    forall es | AllPossible(NEW_SITE, es, grace)
      ensures AllPossible(NEW_SITE, Unpurged(es, {}), grace)
      ensures AnswersAgree(Ran(NEW_SITE, es, grace), Ran(NEW_SITE, Unpurged(es, {}), grace))
    {
      TwinsRun(NEW_SITE, NEW_SITE, {}, es, grace);
    }
  }

  // --- runs of calls, one after another ---

  lemma RunsFirst(s: Site, e: Event, rest: seq<Event>, grace: Time)
    requires Possible(s, e, grace) && AllPossible(Advance(s, e), rest, grace)
    ensures AllPossible(s, [e] + rest, grace) && Ran(s, [e] + rest, grace) == Ran(Advance(s, e), rest, grace)
  {
    hide Possible, Advance;
    assert ([e] + rest)[0] == e && ([e] + rest)[1..] == rest;
  }

  /** The parts of a site that a run of undisturbed calls depends on. */
  ghost predicate Shows(s: Site, db: DB, used: set<Id>, begun: set<nat>, missed: set<nat>, answers: map<nat, Reply>, now: Time) {
    && s.world.db == db && s.world.pending == map[] && s.world.history.used == used && s.world.now == now
    && s.begun == begun && s.missed == missed && s.answers == answers
  }

  function Once(n: nat, c: Call, t: Time): seq<Event> { [Begin(n, c), Resume(n, t)] }

  ghost predicate Fits(c: Call, used: set<Id>) {
    Entry(c) && !IsPurge(c) && !(c.Issue? && c.issue.Rotate?) && DrawsDistinct(c) && Reserved(c) !! used
  }

  /** A call of one statement, run at once. */
  lemma CallRuns(
      s: Site, db: DB, used: set<Id>, begun: set<nat>, missed: set<nat>, answers: map<nat, Reply>, now: Time,
      n: nat, c: Call, t: Time, rest: seq<Event>, grace: Time) returns (s': Site)
    requires Shows(s, db, used, begun, missed, answers, now) && n !in begun && now <= t
    requires Fits(c, used) && Step(db, c, t).next.Finish?
    ensures Shows(s', Step(db, c, t).db, used + Reserved(c), begun + {n},
                  if Misses(db, c, t) then missed + {n} else missed, answers[n := Step(db, c, t).next.reply], t)
    ensures AllPossible(s', rest, grace) ==>
      && AllPossible(s, Once(n, c, t) + rest, grace)
      && Ran(s, Once(n, c, t) + rest, grace) == Ran(s', rest, grace)
  {
    hide Step, Record, Misses, Reserved;
    var s0 := Advance(s, Begin(n, c));
    s' := Advance(s0, Resume(n, t));
    assert s'.world.pending == map[];
    NothingDrawn(s0.world.history, c, Step(db, c, t), t);
    assert Possible(s, Begin(n, c), grace) && Possible(s0, Resume(n, t), grace);
    hide Advance, Possible;
    if AllPossible(s', rest, grace) {
      RunsFirst(s0, Resume(n, t), rest, grace);
      RunsFirst(s, Begin(n, c), [Resume(n, t)] + rest, grace);
      assert Once(n, c, t) + rest == [Begin(n, c)] + ([Resume(n, t)] + rest);
    }
  }

  const TABLES: seq<Table> := [Codes, Access, Refresh]

  function PurgeCall(cutoff: Time): Call { Admin(Purge(cutoff, Requests, TABLES)) }

  function WholePurge(n: nat, cutoff: Time, t: Time): seq<Event> {
    [Begin(n, PurgeCall(cutoff)), Resume(n, t), Resume(n, t), Resume(n, t), Resume(n, t)]
  }

  function Purged(db: DB, cutoff: Time): DB {
    DeleteExpired(DeleteExpired(DeleteExpired(DeleteExpired(db, Requests, cutoff), Codes, cutoff), Access, cutoff), Refresh, cutoff)
  }

  /** One statement of a purge that is not the last. */
  lemma PurgeGoesOnce(s: Site, n: nat, cutoff: Time, table: Table, rest: seq<Table>, t: Time) returns (s': Site)
    requires s.world.pending == map[n := Admin(Purge(cutoff, table, rest))] && s.world.now <= t
    ensures s' == Advance(s, Resume(n, t))
    ensures s'.world.db == DeleteExpired(s.world.db, table, cutoff)
    ensures s'.world.history.used == s.world.history.used && s'.world.now == t
    ensures s'.begun == s.begun && s'.missed == s.missed
    ensures rest != [] ==>
      s'.world.pending == map[n := Admin(Purge(cutoff, rest[0], rest[1..]))] && s'.answers == s.answers
    ensures rest == [] ==> s'.world.pending == map[] && s'.answers == s.answers[n := Ok]
  {
    hide DeleteExpired, Record;
    s' := Advance(s, Resume(n, t));
    NothingDrawn(s.world.history, s.world.pending[n], Step(s.world.db, s.world.pending[n], t), t);
  }

  lemma NothingDrawn(h: History, c: Call, e: Effect, t: Time)
    ensures Record(h, c, e, t).used == h.used
  {}

  lemma RunsFour(s0: Site, s1: Site, s2: Site, s3: Site, s': Site, e: Event, rest: seq<Event>, grace: Time)
    requires Possible(s0, e, grace) && Possible(s1, e, grace) && Possible(s2, e, grace) && Possible(s3, e, grace)
    requires s1 == Advance(s0, e) && s2 == Advance(s1, e) && s3 == Advance(s2, e) && s' == Advance(s3, e)
    requires AllPossible(s', rest, grace)
    ensures var es := [e] + ([e] + ([e] + ([e] + rest)));
      AllPossible(s0, es, grace) && Ran(s0, es, grace) == Ran(s', rest, grace)
  {
    hide *;
    RunsFirst(s3, e, rest, grace);
    RunsFirst(s2, e, [e] + rest, grace);
    RunsFirst(s1, e, [e] + ([e] + rest), grace);
    RunsFirst(s0, e, [e] + ([e] + ([e] + rest)), grace);
  }

  lemma WholePurgeThen(n: nat, cutoff: Time, t: Time, rest: seq<Event>)
    ensures var e := Resume(n, t);
      WholePurge(n, cutoff, t) + rest == [Begin(n, PurgeCall(cutoff))] + ([e] + ([e] + ([e] + ([e] + rest))))
  {}

  /** The purge of the token store, undisturbed. */
  lemma PurgeRuns(
      s: Site, db: DB, used: set<Id>, begun: set<nat>, missed: set<nat>, answers: map<nat, Reply>, now: Time,
      n: nat, cutoff: Time, rest: seq<Event>, grace: Time) returns (s': Site)
    requires Shows(s, db, used, begun, missed, answers, now) && n !in begun && cutoff <= now - grace
    ensures Shows(s', Purged(db, cutoff), used, begun + {n}, missed, answers[n := Ok], now)
    ensures AllPossible(s', rest, grace) ==>
      && AllPossible(s, WholePurge(n, cutoff, now) + rest, grace)
      && Ran(s, WholePurge(n, cutoff, now) + rest, grace) == Ran(s', rest, grace)
  {
    var c, e := PurgeCall(cutoff), Resume(n, now);
    assert TABLES[1..] == [Access, Refresh] && TABLES[1..][1..] == [Refresh] && TABLES[1..][1..][1..] == [];
    assert Possible(s, Begin(n, c), grace) && Reserved(c) == {};
    var s0 := Advance(s, Begin(n, c));
    assert s0.world.pending == map[n := c] && s0.world.history.used == used;
    hide DeleteExpired, Record, Advance;
    var s1 := PurgeGoesOnce(s0, n, cutoff, Requests, TABLES, now);
    var s2 := PurgeGoesOnce(s1, n, cutoff, Codes, TABLES[1..], now);
    var s3 := PurgeGoesOnce(s2, n, cutoff, Access, TABLES[1..][1..], now);
    s' := PurgeGoesOnce(s3, n, cutoff, Refresh, TABLES[1..][1..][1..], now);
    assert Possible(s0, e, grace) && Possible(s1, e, grace) && Possible(s2, e, grace) && Possible(s3, e, grace);
    if AllPossible(s', rest, grace) {
      hide Possible, Shows, Purged, AllPossible, Ran, WholePurge;
      RunsFour(s0, s1, s2, s3, s', e, rest, grace);
      RunsFirst(s, Begin(n, c), [e] + ([e] + ([e] + ([e] + rest))), grace);
      WholePurgeThen(n, cutoff, now, rest);
    }
  }

  lemma UnpurgedCall(n: nat, c: Call, t: Time, rest: seq<Event>, purgers: set<nat>)
    requires !IsPurge(c) && n !in purgers
    ensures Unpurged(Once(n, c, t) + rest, purgers) == Once(n, c, t) + Unpurged(rest, purgers)
  {
    var es := Once(n, c, t) + rest;
    assert es[1..] == [Resume(n, t)] + rest && es[1..][1..] == rest;
  }

  lemma UnpurgedPurge(n: nat, cutoff: Time, t: Time, rest: seq<Event>, purgers: set<nat>)
    ensures Unpurged(WholePurge(n, cutoff, t) + rest, purgers) == Unpurged(rest, purgers + {n})
  {
    var e := Resume(n, t);
    var es := [e] + ([e] + ([e] + ([e] + rest)));
    WholePurgeThen(n, cutoff, t, rest);
    PurgeSkipped(n, PurgeCall(cutoff), es, purgers);
    hide *;
    Skipped(e, [e] + ([e] + ([e] + rest)), purgers + {n});
    Skipped(e, [e] + ([e] + rest), purgers + {n});
    Skipped(e, [e] + rest, purgers + {n});
    Skipped(e, rest, purgers + {n});
  }

  lemma PurgeSkipped(n: nat, c: Call, rest: seq<Event>, purgers: set<nat>)
    requires IsPurge(c)
    ensures Unpurged([Begin(n, c)] + rest, purgers) == Unpurged(rest, purgers + {n})
  {
    assert ([Begin(n, c)] + rest)[1..] == rest;
  }

  lemma Skipped(e: Event, rest: seq<Event>, purgers: set<nat>)
    requires e.Resume? && e.caller in purgers
    ensures Unpurged([e] + rest, purgers) == Unpurged(rest, purgers)
  {
    assert ([e] + rest)[1..] == rest;
  }

  // --- the run that a shorter grace period gives away ---

  /** The last instant at which a request made at time 0 is found. */
  const LAST: Time := AUTH_REQUEST_TTL + SECOND - 1

  const USER := UserRow(false, 0)
  const PLAIN_DETAILS := Details("", "", "", [], "", "", None)
  const CONFIRMED := RequestRow(0, Some(7), PLAIN_DETAILS, Some(0), true, AUTH_REQUEST_TTL)

  const CREATE := Admin(CreateUser(7, USER))
  const ASK := Request(NewRequest(0, 0, None, PLAIN_DETAILS))
  const CONFIRM := Request(Complete(0, 7))
  const SAVE := Request(SaveCode(0, 1))
  const RELOAD := Request(LoadRequest(0))
  const SAVE_AGAIN := Request(SaveCode(0, 2))

  /** A user signs in and gets a code; the login page is loaded again half an hour later. */
  function SignedIn(): seq<Event> {
    Once(0, CREATE, 0) + (Once(1, ASK, 0) + (Once(2, CONFIRM, 0) + (Once(3, SAVE, 0) + (Once(4, RELOAD, LAST) + []))))
  }

  const CREATED_DB := EMPTY_DB.(users := map[7 := USER])
  const ASKED_DB := CREATED_DB.(requests := map[0 := RequestRow(0, None, PLAIN_DETAILS, None, false, AUTH_REQUEST_TTL)])
  const CONFIRMED_DB := CREATED_DB.(requests := map[0 := CONFIRMED])
  const SAVED_DB := CONFIRMED_DB.(codes := map[1 := CodeRow(0, AUTH_CODE_TTL)])

  lemma SignInSteps()
    ensures Step(EMPTY_DB, CREATE, 0) == Effect(CREATED_DB, Finish(Ok))
    ensures Step(CREATED_DB, ASK, 0).db == ASKED_DB && Step(CREATED_DB, ASK, 0).next.Finish?
    ensures Step(ASKED_DB, CONFIRM, 0) == Effect(CONFIRMED_DB, Finish(Ok))
    ensures Step(CONFIRMED_DB, SAVE, 0) == Effect(SAVED_DB, Finish(Ok))
    ensures Step(SAVED_DB, RELOAD, LAST) == Effect(SAVED_DB, Finish(RequestFound(0, CONFIRMED)))
    ensures !Misses(EMPTY_DB, CREATE, 0) && !Misses(CREATED_DB, ASK, 0) && !Misses(ASKED_DB, CONFIRM, 0)
    ensures !Misses(CONFIRMED_DB, SAVE, 0) && !Misses(SAVED_DB, RELOAD, LAST)
  {
    assert !HasCode(CONFIRMED_DB, 0);
    assert EMPTY_DB.users[7 := USER] == map[7 := USER];
    assert CONFIRMED_DB.codes[1 := CodeRow(0, AUTH_CODE_TTL)] == map[1 := CodeRow(0, AUTH_CODE_TTL)];
  }

  lemma SignInFits()
    ensures Fits(CREATE, {}) && Fits(ASK, {}) && Fits(CONFIRM, {0}) && Fits(SAVE, {0}) && Fits(RELOAD, {0, 1})
    ensures Reserved(CREATE) == Reserved(CONFIRM) == Reserved(RELOAD) == {} && Reserved(ASK) == {0} && Reserved(SAVE) == {1}
  {}

  ghost predicate Leads(s: Site, s': Site, es: seq<Event>, rest: seq<Event>, grace: Time) {
    AllPossible(s', rest, grace) ==>
      AllPossible(s, es + rest, grace) && Ran(s, es + rest, grace) == Ran(s', rest, grace)
  }

  /** After the sign-in: one request, one code, nothing missed, and it is half an hour later. */
  lemma SignInRuns(rest: seq<Event>, grace: Time) returns (s: Site, answers: map<nat, Reply>)
    ensures Shows(s, SAVED_DB, {0, 1}, {0, 1, 2, 3, 4}, {}, answers, LAST)
    ensures Leads(NEW_SITE, s, SignedIn(), rest, grace)
  {
    SignInSteps();
    SignInFits();
    hide Step, Misses, AllPossible, Ran, Fits, Reserved;
    var r4 := Once(4, RELOAD, LAST) + rest;
    var r3 := Once(3, SAVE, 0) + r4;
    var r2 := Once(2, CONFIRM, 0) + r3;
    var r1 := Once(1, ASK, 0) + r2;
    var a1: map<nat, Reply> := map[0 := Ok];
    var a2 := a1[1 := Step(CREATED_DB, ASK, 0).next.reply];
    var a3 := a2[2 := Ok];
    var a4 := a3[3 := Ok];
    answers := a4[4 := RequestFound(0, CONFIRMED)];
    assert map[][0 := Ok] == a1;
    var s1 := CallRuns(NEW_SITE, EMPTY_DB, {}, {}, {}, map[], 0, 0, CREATE, 0, r1, grace);
    var s2 := CallRuns(s1, CREATED_DB, {}, {0}, {}, a1, 0, 1, ASK, 0, r2, grace);
    var s3 := CallRuns(s2, ASKED_DB, {0}, {0, 1}, {}, a2, 0, 2, CONFIRM, 0, r3, grace);
    var s4 := CallRuns(s3, CONFIRMED_DB, {0}, {0, 1, 2}, {}, a3, 0, 3, SAVE, 0, r4, grace);
    s := CallRuns(s4, SAVED_DB, {0, 1}, {0, 1, 2, 3}, {}, a4, 0, 4, RELOAD, LAST, rest, grace);
    assert SignedIn() + rest == Once(0, CREATE, 0) + r1;
  }

  /** A cutoff that spares the request and not its code. */
  function Cutoff(grace: Time): Time { if LAST - grace < AUTH_REQUEST_TTL then LAST - grace else AUTH_REQUEST_TTL }

  /** Of the four statements of the purge only the second removes something: the code. */
  lemma OnlyTheCodeGoes(grace: Time)
    requires grace < SAFE_GRACE
    ensures Purged(SAVED_DB, Cutoff(grace)) == CONFIRMED_DB
  {
    var cutoff := Cutoff(grace);
    assert DeleteExpired(SAVED_DB, Requests, cutoff) == SAVED_DB by {
      assert Without(SAVED_DB.requests, (id: Id, r: RequestRow) => r.expires < cutoff) == SAVED_DB.requests;
      assert Without(SAVED_DB.codes, (id: Id, c: CodeRow) => c.request in SAVED_DB.requests && c.request !in SAVED_DB.requests) == SAVED_DB.codes;
    }
    assert DeleteExpired(SAVED_DB, Codes, cutoff) == CONFIRMED_DB by {
      assert Without(SAVED_DB.codes, (id: Id, c: CodeRow) => c.expires < cutoff) == map[];
    }
    assert DeleteExpired(CONFIRMED_DB, Access, cutoff) == CONFIRMED_DB by {
      assert Without(CONFIRMED_DB.access, (id: Id, a: AccessRow) => a.expires < cutoff) == map[];
    }
    assert DeleteExpired(CONFIRMED_DB, Refresh, cutoff) == CONFIRMED_DB by {
      assert Without(CONFIRMED_DB.refresh, (id: Id, r: RefreshRow) => r.expires < cutoff) == map[];
    }
  }

  lemma SecondCode()
    ensures Step(CONFIRMED_DB, SAVE_AGAIN, LAST).next == Finish(Ok) && !Misses(CONFIRMED_DB, SAVE_AGAIN, LAST)
    ensures Step(SAVED_DB, SAVE_AGAIN, LAST).next == Finish(Failed) && !Misses(SAVED_DB, SAVE_AGAIN, LAST)
  {
    assert !HasCode(CONFIRMED_DB, 0);
    assert 1 in SAVED_DB.codes && HasCode(SAVED_DB, 0);
  }

  function GivenAway(grace: Time): seq<Event> {
    SignedIn() + (WholePurge(5, Cutoff(grace), LAST) + (Once(6, SAVE_AGAIN, LAST) + []))
  }

  /** After the sign-in: the purge, and a second code. */
  lemma SecondCodeRuns(s: Site, answers: map<nat, Reply>, grace: Time) returns (s': Site)
    requires grace < SAFE_GRACE && Shows(s, SAVED_DB, {0, 1}, {0, 1, 2, 3, 4}, {}, answers, LAST)
    ensures s'.world.pending == map[] && 6 in s'.answers && s'.answers[6] == Ok
    ensures AllPossible(s, WholePurge(5, Cutoff(grace), LAST) + (Once(6, SAVE_AGAIN, LAST) + []), grace)
    ensures Ran(s, WholePurge(5, Cutoff(grace), LAST) + (Once(6, SAVE_AGAIN, LAST) + []), grace) == s'
  {
    var r6 := Once(6, SAVE_AGAIN, LAST) + [];
    SecondCode();
    OnlyTheCodeGoes(grace);
    hide Step, Misses, Purged, Once, WholePurge, AllPossible, Ran, DeleteExpired, HasCode;
    var s5 := PurgeRuns(s, SAVED_DB, {0, 1}, {0, 1, 2, 3, 4}, {}, answers, LAST, 5, Cutoff(grace), r6, grace);
    s' := CallRuns(s5, CONFIRMED_DB, {0, 1}, {0, 1, 2, 3, 4, 5}, {}, answers[5 := Ok], LAST, 6, SAVE_AGAIN, LAST, [], grace);
    NothingMore(s', grace);
  }

  lemma PurgedRun(grace: Time)
    requires grace < SAFE_GRACE
    ensures var es := GivenAway(grace);
      && AllPossible(NEW_SITE, es, grace)
      && var s := Ran(NEW_SITE, es, grace); s.world.pending == map[] && 6 in s.answers && s.answers[6] == Ok
  {
    hide Once, WholePurge, SignedIn, AllPossible, Ran, Shows;
    var s, answers := SignInRuns(WholePurge(5, Cutoff(grace), LAST) + (Once(6, SAVE_AGAIN, LAST) + []), grace);
    var s' := SecondCodeRuns(s, answers, grace);
  }

  lemma NothingMore(s: Site, grace: Time)
    ensures AllPossible(s, [], grace) && Ran(s, [], grace) == s
  {}

  lemma UnpurgedRun(grace: Time)
    ensures var es := SignedIn() + (Once(6, SAVE_AGAIN, LAST) + []);
      && AllPossible(NEW_SITE, es, grace)
      && var s := Ran(NEW_SITE, es, grace);
         s.world.pending == map[] && 6 in s.answers && s.answers[6] == Failed && 6 in s.begun && s.missed == {}
  {
    var r6 := Once(6, SAVE_AGAIN, LAST) + [];
    SecondCode();
    hide Step, Misses, Once, SignedIn;
    var s, answers := SignInRuns(r6, grace);
    var s6 := CallRuns(s, SAVED_DB, {0, 1}, {0, 1, 2, 3, 4}, {}, answers, LAST, 6, SAVE_AGAIN, LAST, [], grace);
    NothingMore(s6, grace);
  }

  lemma GivenAwayUnpurged(grace: Time)
    ensures Unpurged(GivenAway(grace), {}) == SignedIn() + (Once(6, SAVE_AGAIN, LAST) + [])
  {
    var r6 := Once(6, SAVE_AGAIN, LAST) + [];
    var r5 := WholePurge(5, Cutoff(grace), LAST) + r6;
    assert Unpurged([], {5}) == [] && {} + {5} == {5};
    hide Unpurged, Once, WholePurge, SignedIn;
    UnpurgedCall(6, SAVE_AGAIN, LAST, [], {5});
    UnpurgedPurge(5, Cutoff(grace), LAST, r6, {});
    UnpurgedCall(4, RELOAD, LAST, r5, {});
    UnpurgedCall(3, SAVE, 0, Once(4, RELOAD, LAST) + r5, {});
    UnpurgedCall(2, CONFIRM, 0, Once(3, SAVE, 0) + (Once(4, RELOAD, LAST) + r5), {});
    UnpurgedCall(1, ASK, 0, Once(2, CONFIRM, 0) + (Once(3, SAVE, 0) + (Once(4, RELOAD, LAST) + r5)), {});
    UnpurgedCall(0, CREATE, 0, Once(1, ASK, 0) + (Once(2, CONFIRM, 0) + (Once(3, SAVE, 0) + (Once(4, RELOAD, LAST) + r5))), {});
    SignedInThen(r5);
    SignedInThen(r6);
  }

  lemma SignedInThen(rest: seq<Event>)
    ensures SignedIn() + rest ==
      Once(0, CREATE, 0) + (Once(1, ASK, 0) + (Once(2, CONFIRM, 0) + (Once(3, SAVE, 0) + (Once(4, RELOAD, LAST) + rest))))
  {}

  lemma ShorterGraceShows(grace: Time)
    requires grace < SAFE_GRACE
    ensures !Unobservable(grace)
  {
    PurgedRun(grace);
    UnpurgedRun(grace);
    GivenAwayUnpurged(grace);
    hide AllPossible, Ran, Unpurged, GivenAway, SignedIn, Once;
  }

  /** Purges go unnoticed exactly when they stay 25 minutes and almost one second behind the clock. */
  lemma UnobservableExactly(grace: Time)
    ensures Unobservable(grace) <==> grace >= 1_500 * 1_000_000_000 + 999_999_999
  {
    assert SAFE_GRACE == 1_500 * 1_000_000_000 + 999_999_999;
    if grace >= SAFE_GRACE { SafeGraceSuffices(grace); } else { ShorterGraceShows(grace); }
  }

  /** `nass serve` purges a day behind the clock. */
  lemma DailyPurgeIsUnobservable()
    ensures Unobservable(24 * 3_600 * 1_000_000_000)
  {
    UnobservableExactly(24 * 3_600 * 1_000_000_000);
    hide Unobservable;
  }

  // --- what no grace period hides ---

  /** As `Unobservable`, but comparing also what is answered about rows that nobody can find. */
  ghost predicate WhollyUnobservable(grace: Time) {
    forall es, n | AllPossible(NEW_SITE, es, grace) && AllPossible(NEW_SITE, Unpurged(es, {}), grace) ::
      var s1, s2 := Ran(NEW_SITE, es, grace), Ran(NEW_SITE, Unpurged(es, {}), grace);
      n in s2.begun && n in s1.answers && n in s2.answers ==> s1.answers[n] == s2.answers[n]
  }

  /** Long enough after a request for a purge to remove it. */
  function Late(grace: Time): Time { AUTH_REQUEST_TTL + 1 + if grace > 0 then grace else 0 }

  function Asked(): DB { EMPTY_DB.(requests := map[0 := RequestRow(0, None, PLAIN_DETAILS, None, false, AUTH_REQUEST_TTL)]) }

  lemma AskedSteps(t: Time)
    requires t > AUTH_REQUEST_TTL
    ensures Step(EMPTY_DB, ASK, 0).db == Asked() && Step(EMPTY_DB, ASK, 0).next.Finish?
    ensures Step(Asked(), RELOAD, t).db == Asked() && Step(Asked(), RELOAD, t).next.Finish?
    ensures Step(Asked(), CONFIRM, t).next == Finish(Ok) && Step(EMPTY_DB, CONFIRM, t).next == Finish(Failed)
    ensures Purged(Asked(), AUTH_REQUEST_TTL + 1) == EMPTY_DB
    ensures !Misses(EMPTY_DB, ASK, 0) && !Misses(Asked(), RELOAD, t)
  {
    var cutoff := AUTH_REQUEST_TTL + 1;
    assert DeleteExpired(Asked(), Requests, cutoff) == EMPTY_DB by {
      assert Without(Asked().requests, (id: Id, r: RequestRow) => r.expires < cutoff) == map[];
      assert Without(Asked().codes, (id: Id, c: CodeRow) => c.request in Asked().requests && c.request !in EMPTY_DB.requests) == map[];
    }
    assert DeleteExpired(EMPTY_DB, Codes, cutoff) == EMPTY_DB by {
      assert Without(EMPTY_DB.codes, (id: Id, c: CodeRow) => c.expires < cutoff) == map[];
    }
    assert DeleteExpired(EMPTY_DB, Access, cutoff) == EMPTY_DB by {
      assert Without(EMPTY_DB.access, (id: Id, a: AccessRow) => a.expires < cutoff) == map[];
    }
    assert DeleteExpired(EMPTY_DB, Refresh, cutoff) == EMPTY_DB by {
      assert Without(EMPTY_DB.refresh, (id: Id, r: RefreshRow) => r.expires < cutoff) == map[];
    }
  }

  function AskedAndReloaded(t: Time): seq<Event> { Once(1, ASK, 0) + (Once(2, RELOAD, t) + []) }

  lemma AskRuns(t: Time, rest: seq<Event>, grace: Time) returns (s: Site, answers: map<nat, Reply>)
    requires t > AUTH_REQUEST_TTL
    ensures Shows(s, Asked(), {0}, {1, 2}, {}, answers, t)
    ensures Leads(NEW_SITE, s, AskedAndReloaded(t), rest, grace)
  {
    AskedSteps(t);
    hide Step, Misses, AllPossible, Ran, Purged, Asked;
    var r2 := Once(2, RELOAD, t) + rest;
    var a1: map<nat, Reply> := map[][1 := Step(EMPTY_DB, ASK, 0).next.reply];
    answers := a1[2 := Step(Asked(), RELOAD, t).next.reply];
    var s1 := CallRuns(NEW_SITE, EMPTY_DB, {}, {}, {}, map[], 0, 1, ASK, 0, r2, grace);
    s := CallRuns(s1, Asked(), {0}, {1}, {}, a1, 0, 2, RELOAD, t, rest, grace);
    assert AskedAndReloaded(t) + rest == Once(1, ASK, 0) + r2;
  }

  lemma LateConfirmRuns(s: Site, db: DB, begun: set<nat>, answers: map<nat, Reply>, t: Time, grace: Time) returns (s': Site)
    requires Shows(s, db, {0}, begun, {}, answers, t) && 4 !in begun && Step(db, CONFIRM, t).next.Finish?
    ensures 4 in s'.begun && 4 in s'.answers && s'.answers[4] == Step(db, CONFIRM, t).next.reply
    ensures AllPossible(s, Once(4, CONFIRM, t) + [], grace) && Ran(s, Once(4, CONFIRM, t) + [], grace) == s'
  {
    hide Step, Misses, AllPossible, Ran;
    s' := CallRuns(s, db, {0}, begun, {}, answers, t, 4, CONFIRM, t, [], grace);
    NothingMore(s', grace);
  }

  function LateEnd(t: Time): seq<Event> { WholePurge(3, AUTH_REQUEST_TTL + 1, t) + (Once(4, CONFIRM, t) + []) }

  lemma LatePurgedRun(grace: Time)
    ensures var t := Late(grace);
      var es := AskedAndReloaded(t) + LateEnd(t);
      && AllPossible(NEW_SITE, es, grace)
      && var s := Ran(NEW_SITE, es, grace); 4 in s.answers && s.answers[4] == Failed
  {
    var t := Late(grace);
    AskedSteps(t);
    hide Step, Misses, AllPossible, Ran, Purged, Asked, Once, WholePurge, AskedAndReloaded;
    var s, answers := AskRuns(t, LateEnd(t), grace);
    var s3 := PurgeRuns(s, Asked(), {0}, {1, 2}, {}, answers, t, 3, AUTH_REQUEST_TTL + 1, Once(4, CONFIRM, t) + [], grace);
    var s4 := LateConfirmRuns(s3, EMPTY_DB, {1, 2, 3}, answers[3 := Ok], t, grace);
    hide Shows;
  }

  lemma LateRun(grace: Time)
    ensures var t := Late(grace);
      var es := AskedAndReloaded(t) + (Once(4, CONFIRM, t) + []);
      && AllPossible(NEW_SITE, es, grace)
      && var s := Ran(NEW_SITE, es, grace); 4 in s.begun && 4 in s.answers && s.answers[4] == Ok
  {
    var t := Late(grace);
    AskedSteps(t);
    hide Step, Misses, AllPossible, Ran, Purged, Asked, Once, AskedAndReloaded;
    var s, answers := AskRuns(t, Once(4, CONFIRM, t) + [], grace);
    var s4 := LateConfirmRuns(s, Asked(), {1, 2}, answers, t, grace);
    hide Shows;
  }

  /**
    Completing a request that has expired succeeds as long as the request is stored, so
    every purge of expired requests changes that answer, whatever the grace period.
   */
  lemma ExpiredRequestsShow(grace: Time)
    ensures !WhollyUnobservable(grace)
  {
    var t := Late(grace);
    LatePurgedRun(grace);
    LateRun(grace);
    LateUnpurged(t, AUTH_REQUEST_TTL + 1);
    var es := AskedAndReloaded(t) + LateEnd(t);
    assert Unpurged(es, {}) == AskedAndReloaded(t) + (Once(4, CONFIRM, t) + []);
    hide AllPossible, Ran, Unpurged, AskedAndReloaded, LateEnd, Once, WholePurge, Late;
  }

  lemma LateUnpurged(t: Time, cutoff: Time)
    ensures Unpurged(AskedAndReloaded(t) + (WholePurge(3, cutoff, t) + (Once(4, CONFIRM, t) + [])), {})
      == AskedAndReloaded(t) + (Once(4, CONFIRM, t) + [])
  {
    var r4 := Once(4, CONFIRM, t) + [];
    var r3 := WholePurge(3, cutoff, t) + r4;
    assert Unpurged([], {3}) == [] && {} + {3} == {3};
    hide Unpurged, Once, WholePurge;
    UnpurgedCall(4, CONFIRM, t, [], {3});
    UnpurgedPurge(3, cutoff, t, r4, {});
    UnpurgedCall(2, RELOAD, t, r3, {});
    UnpurgedCall(1, ASK, 0, Once(2, RELOAD, t) + r3, {});
    assert AskedAndReloaded(t) + r3 == Once(1, ASK, 0) + (Once(2, RELOAD, t) + r3);
    assert AskedAndReloaded(t) + r4 == Once(1, ASK, 0) + (Once(2, RELOAD, t) + r4);
  }
}
