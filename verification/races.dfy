/**
  Runs from an empty database in which a rotation gets between two statements of a
  revocation: it reports success, and the family it should have ended lives on.
 */
module Races {
  import opened Wrappers
  import opened Schema
  import opened Calls
  import opened Interleaving
  import opened Grants
  import opened Revocation

  // --- runs at time 0, event by event ---

  /** The parts of a world that a run depends on. */
  ghost predicate Stands(
      w: World, db: DB, pending: map<nat, Call>, used: set<Id>, loaded: set<RefreshRequest>, family: map<Id, Id>)
  {
    && w.db == db && w.pending == pending && w.now == 0
    && w.history.used == used && w.history.loaded == loaded && w.history.family == family
  }

  lemma Starts(
      w: World, db: DB, pending: map<nat, Call>, used: set<Id>, loaded: set<RefreshRequest>, family: map<Id, Id>,
      n: nat, c: Call) returns (w': World)
    requires Stands(w, db, pending, used, loaded, family) && n !in pending
    requires Entry(c) && DrawsDistinct(c) && Reserved(c) !! used
    requires c.Issue? && c.issue.Rotate? ==> SpeaksFor(c.issue.req, c.issue.current, loaded)
    ensures Enabled(w, Begin(n, c)) && w' == After(w, Begin(n, c))
    ensures Stands(w', db, pending[n := c], used + Reserved(c), loaded, family)
  {
    w' := After(w, Begin(n, c));
  }

  lemma Goes(
      w: World, db: DB, pending: map<nat, Call>, used: set<Id>, loaded: set<RefreshRequest>, family: map<Id, Id>,
      n: nat) returns (w': World)
    requires Stands(w, db, pending, used, loaded, family) && n in pending
    ensures Enabled(w, Resume(n, 0)) && w' == After(w, Resume(n, 0))
    ensures var c := pending[n];
      var e := Step(db, c, 0);
      Stands(w', e.db, if e.next.Continue? then pending[n := e.next.call] else pending - {n}, used,
             if c.Issue? && e.next.Finish? && e.next.reply.RefreshFound? then loaded + {e.next.reply.request} else loaded,
             NextFamily(w.history, c, e))
  {
    hide Step, NextFamily;
    w' := After(w, Resume(n, 0));
  }

  lemma FamilyUnchanged(h: History, c: Call, e: Effect)
    requires !Issued(e)
    ensures NextFamily(h, c, e) == h.family
  {}

  lemma LegalFirst(w: World, e: Event, rest: seq<Event>)
    requires Enabled(w, e) && Legal(After(w, e), rest)
    ensures Legal(w, [e] + rest) && AfterAll(w, [e] + rest) == AfterAll(After(w, e), rest)
  {
    hide Enabled, After;
    assert ([e] + rest)[0] == e && ([e] + rest)[1..] == rest;
  }

  /** Two callers, of which the first goes on or the second ends. */
  lemma TwoCallers<C>(a: nat, x: C, x': C, b: nat, y: C, y': C)
    requires a != b
    ensures map[a := x, b := y] - {b} == map[a := x]
    ensures map[a := x, b := y][a := x'] == map[a := x', b := y]
    ensures map[a := x][b := y][b := y'] == map[a := x, b := y']
  {}

  lemma LegalNone(w: World)
    ensures Legal(w, []) && AfterAll(w, []) == w
  {}

  // --- a user with a pair of tokens ---

  const USER := UserRow(false, 0)
  const GRANT := TokenRequest(0, Some(7), [0], [], Some(0))
  const FIRST_ACCESS := AccessRow(0, 7, Some(2), [0], [], ACCESS_TOKEN_TTL)
  const FIRST_REFRESH := RefreshRow(7, 0, [], [0], 0, REFRESH_TOKEN_TTL)
  const LOADED := RefreshRequest(2, 0, 7, [], [0], 0)

  const CREATE := Admin(CreateUser(7, USER))
  const PAIR := Issue(IssuePair(GRANT, 1, 2))
  const PAIR_STORED := Issue(PairRefresh(GRANT, 1, 2, ACCESS_TOKEN_TTL))
  const LOOKUP := Issue(LoadRefresh(2))
  const REVOKE := Withdraw(Revoke(2, 0))
  const ROTATE := Issue(Rotate(GRANT, 2, 3, 4))
  const ROTATE_STORED := Issue(RotateTx(2, [], 3, 4, ACCESS_TOKEN_TTL))

  const WITH_USER := EMPTY_DB.(users := map[7 := USER])
  const WITH_ACCESS := WITH_USER.(access := map[1 := FIRST_ACCESS])
  const WITH_PAIR := WITH_ACCESS.(refresh := map[2 := FIRST_REFRESH])
  const WITH_NEW_ACCESS := WITH_PAIR.(access := map[1 := FIRST_ACCESS, 3 := FIRST_ACCESS.(refresh := Some(4))])

  lemma IssueSteps()
    ensures Step(EMPTY_DB, CREATE, 0) == Effect(WITH_USER, Finish(Ok))
    ensures Step(WITH_USER, PAIR, 0) == Effect(WITH_ACCESS, Continue(PAIR_STORED))
    ensures Step(WITH_ACCESS, PAIR_STORED, 0) == Effect(WITH_PAIR, Finish(PairIssued(1, 2, ACCESS_TOKEN_TTL)))
    ensures Step(WITH_PAIR, LOOKUP, 0) == Effect(WITH_PAIR, Finish(RefreshFound(LOADED)))
    ensures Step(WITH_PAIR, ROTATE, 0) == Effect(WITH_NEW_ACCESS, Continue(ROTATE_STORED))
  {
    assert EMPTY_DB.users[7 := USER] == map[7 := USER];
    assert WITH_USER.access[1 := FIRST_ACCESS] == map[1 := FIRST_ACCESS];
    assert WITH_ACCESS.refresh[2 := FIRST_REFRESH] == map[2 := FIRST_REFRESH];
  }

  /** What the rotation transaction leaves: the new refresh token in place of the old one. */
  lemma RotationStep()
    ensures var e := Step(WITH_NEW_ACCESS, ROTATE_STORED, 0);
      && e.next == Finish(PairIssued(3, 4, ACCESS_TOKEN_TTL))
      && 4 in e.db.refresh && 2 !in e.db.refresh && 2 !in e.db.access
  {}

  /** The user gets a pair, and the library looks the refresh token up. */
  function Setup(): seq<Event> {
    [Begin(0, CREATE)] + ([Resume(0, 0)] + ([Begin(1, PAIR)] + ([Resume(1, 0)] + ([Resume(1, 0)]
    + ([Begin(2, LOOKUP)] + ([Resume(2, 0)] + []))))))
  }

  lemma PairIsIssued() returns (w: World)
    ensures Legal(NEW_WORLD, Setup()) && w == AfterAll(NEW_WORLD, Setup())
    ensures Stands(w, WITH_PAIR, map[], {1, 2}, {LOADED}, map[2 := 2])
  {
    IssueSteps();
    hide Step, NextFamily, Enabled, After;
    var w1 := Starts(NEW_WORLD, EMPTY_DB, map[], {}, {}, map[], 0, CREATE);
    var w2 := Goes(w1, EMPTY_DB, map[0 := CREATE], {}, {}, map[], 0);
    FamilyUnchanged(w1.history, CREATE, Step(EMPTY_DB, CREATE, 0));
    assert map[0 := CREATE] - {0} == map[];
    var w3 := Starts(w2, WITH_USER, map[], {}, {}, map[], 1, PAIR);
    var w4 := Goes(w3, WITH_USER, map[1 := PAIR], {1, 2}, {}, map[], 1);
    FamilyUnchanged(w3.history, PAIR, Step(WITH_USER, PAIR, 0));
    var w5 := Goes(w4, WITH_ACCESS, map[1 := PAIR_STORED], {1, 2}, {}, map[], 1);
    assert NextFamily(w4.history, PAIR_STORED, Step(WITH_ACCESS, PAIR_STORED, 0)) == map[2 := 2] by {
      FirstOfFamily(w4.history, Step(WITH_ACCESS, PAIR_STORED, 0));
    }
    assert map[1 := PAIR_STORED] - {1} == map[];
    w := PairIsLookedUp(w5);
    LegalFirst(w4, Resume(1, 0), [Begin(2, LOOKUP)] + ([Resume(2, 0)] + []));
    LegalFirst(w3, Resume(1, 0), [Resume(1, 0)] + ([Begin(2, LOOKUP)] + ([Resume(2, 0)] + [])));
    LegalFirst(w2, Begin(1, PAIR), [Resume(1, 0)] + ([Resume(1, 0)] + ([Begin(2, LOOKUP)] + ([Resume(2, 0)] + []))));
    var rest := [Begin(1, PAIR)] + ([Resume(1, 0)] + ([Resume(1, 0)] + ([Begin(2, LOOKUP)] + ([Resume(2, 0)] + []))));
    LegalFirst(w1, Resume(0, 0), rest);
    LegalFirst(NEW_WORLD, Begin(0, CREATE), [Resume(0, 0)] + rest);
  }

  lemma FirstOfFamily(h: History, e: Effect)
    requires h.family == map[] && e.next == Finish(PairIssued(1, 2, ACCESS_TOKEN_TTL))
    ensures NextFamily(h, PAIR_STORED, e) == map[2 := 2]
  {}

  lemma PairIsLookedUp(w: World) returns (w': World)
    requires Stands(w, WITH_PAIR, map[], {1, 2}, {}, map[2 := 2])
    ensures Legal(w, [Begin(2, LOOKUP)] + ([Resume(2, 0)] + []))
    ensures w' == AfterAll(w, [Begin(2, LOOKUP)] + ([Resume(2, 0)] + []))
    ensures Stands(w', WITH_PAIR, map[], {1, 2}, {LOADED}, map[2 := 2])
  {
    IssueSteps();
    hide Step, NextFamily, Enabled, After;
    var w1 := Starts(w, WITH_PAIR, map[], {1, 2}, {}, map[2 := 2], 2, LOOKUP);
    w' := Goes(w1, WITH_PAIR, map[2 := LOOKUP], {1, 2}, {}, map[2 := 2], 2);
    FamilyUnchanged(w1.history, LOOKUP, Step(WITH_PAIR, LOOKUP, 0));
    assert map[2 := LOOKUP] - {2} == map[] && {} + {LOADED} == {LOADED};
    LegalNone(w');
    LegalFirst(w1, Resume(2, 0), []);
    LegalFirst(w, Begin(2, LOOKUP), [Resume(2, 0)] + []);
  }

  // --- the race ---

  /** A revocation and a rotation of the same token begin; the rotation has stored its access token. */
  function Racing(): seq<Event> { [Begin(3, REVOKE)] + ([Begin(4, ROTATE)] + ([Resume(4, 0)] + ([Resume(3, 0)] + []))) }

  const FOUND_NO_ACCESS := Withdraw(RevokeFindRefresh(2, 0))
  const FOUND_REFRESH := Withdraw(RevokeRefresh(2))

  lemma RaceIsOn(w: World) returns (w': World)
    requires Stands(w, WITH_PAIR, map[], {1, 2}, {LOADED}, map[2 := 2])
    ensures Legal(w, Racing()) && w' == AfterAll(w, Racing())
    ensures Stands(w', WITH_NEW_ACCESS, map[3 := FOUND_NO_ACCESS, 4 := ROTATE_STORED], {1, 2, 3, 4}, {LOADED}, map[2 := 2])
  {
    IssueSteps();
    assert Step(WITH_NEW_ACCESS, REVOKE, 0) == Effect(WITH_NEW_ACCESS, Continue(FOUND_NO_ACCESS));
    assert SpeaksFor(GRANT, 2, {LOADED}) by { assert LOADED in {LOADED}; }
    assert Reserved(REVOKE) == {} && Reserved(ROTATE) == {3, 4};
    hide Step, NextFamily, Enabled, After, Reserved, SpeaksFor, Legal, AfterAll;
    var p: map<nat, Call> := map[3 := REVOKE];
    var w1 := Starts(w, WITH_PAIR, map[], {1, 2}, {LOADED}, map[2 := 2], 3, REVOKE);
    assert {1, 2} + Reserved(REVOKE) == {1, 2} && map[][3 := REVOKE] == p;
    var w2 := Starts(w1, WITH_PAIR, p, {1, 2}, {LOADED}, map[2 := 2], 4, ROTATE);
    assert {1, 2} + Reserved(ROTATE) == {1, 2, 3, 4};
    var w3 := Goes(w2, WITH_PAIR, p[4 := ROTATE], {1, 2, 3, 4}, {LOADED}, map[2 := 2], 4);
    FamilyUnchanged(w2.history, ROTATE, Step(WITH_PAIR, ROTATE, 0));
    TwoCallers(3, REVOKE, FOUND_NO_ACCESS, 4, ROTATE, ROTATE_STORED);
    TwoCallers(3, REVOKE, FOUND_NO_ACCESS, 4, ROTATE_STORED, ROTATE_STORED);
    var q: map<nat, Call> := map[3 := REVOKE, 4 := ROTATE_STORED];
    w' := Goes(w3, WITH_NEW_ACCESS, q, {1, 2, 3, 4}, {LOADED}, map[2 := 2], 3);
    FamilyUnchanged(w3.history, REVOKE, Step(WITH_NEW_ACCESS, REVOKE, 0));
    LegalNone(w');
    LegalFirst(w3, Resume(3, 0), []);
    LegalFirst(w2, Resume(4, 0), [Resume(3, 0)] + []);
    LegalFirst(w1, Begin(4, ROTATE), [Resume(4, 0)] + ([Resume(3, 0)] + []));
    LegalFirst(w, Begin(3, REVOKE), [Begin(4, ROTATE)] + ([Resume(4, 0)] + ([Resume(3, 0)] + [])));
  }

  /** The rotation commits: the family has a new live token and the old one is gone. */
  lemma RotationWins(w: World, pending: map<nat, Call>) returns (w': World, db: DB)
    requires Stands(w, WITH_NEW_ACCESS, pending, {1, 2, 3, 4}, {LOADED}, map[2 := 2])
    requires 3 in pending && 4 in pending && pending[4] == ROTATE_STORED
    ensures Enabled(w, Resume(4, 0)) && w' == After(w, Resume(4, 0))
    ensures Stands(w', db, pending - {4}, {1, 2, 3, 4}, {LOADED}, map[2 := 2, 4 := 2])
    ensures 4 in db.refresh && 2 !in db.refresh && 2 !in db.access
  {
    RotationStep();
    var e := Step(WITH_NEW_ACCESS, ROTATE_STORED, 0);
    db := e.db;
    assert NextFamily(w.history, ROTATE_STORED, e) == map[2 := 2, 4 := 2];
    hide Step, NextFamily, Enabled, After;
    w' := Goes(w, WITH_NEW_ACCESS, pending, {1, 2, 3, 4}, {LOADED}, map[2 := 2], 4);
  }

  /** The family of the token that the client wanted to revoke has a live token, and the call has nothing left but to answer Ok. */
  ghost predicate RevokedInVain(w: World) {
    && 3 in w.pending && Decides(w, 3, 2) && 2 !in w.db.refresh
    && InFamily(w.history.family, 2, 2) && InFamily(w.history.family, 4, 2) && 4 in w.db.refresh
    && var e := Step(w.db, w.pending[3], 0);
       && e.db.refresh == w.db.refresh
       && (if e.next.Finish? then e.next.reply == Ok
           else Step(e.db, e.next.call, 0).next == Finish(Ok) && Step(e.db, e.next.call, 0).db.refresh == w.db.refresh)
  }

  lemma InVain(w: World, db: DB, c: WithdrawCall)
    requires Stands(w, db, map[3 := Withdraw(c)], {1, 2, 3, 4}, {LOADED}, map[2 := 2, 4 := 2])
    requires 4 in db.refresh && 2 !in db.refresh && (c == RevokeFindRefresh(2, 0) || c == RevokeRefresh(2))
    ensures RevokedInVain(w)
  {
    assert db.refresh - {2} == db.refresh;
  }

  /** The rotation commits before the revocation looks for a refresh token. */
  function EarlyWindow(): seq<Event> { Racing() + ([Resume(4, 0)] + []) }

  /** The rotation commits between the SELECT and the DELETE of the revocation. */
  function LateWindow(): seq<Event> { Racing() + ([Resume(3, 0)] + ([Resume(4, 0)] + [])) }

  lemma LegalThen(w: World, es: seq<Event>, rest: seq<Event>)
    requires Legal(w, es) && Legal(AfterAll(w, es), rest)
    ensures Legal(w, es + rest) && AfterAll(w, es + rest) == AfterAll(AfterAll(w, es), rest)
    decreases |es|
  {
    hide Enabled, After;
    if es == [] {
      assert es + rest == rest;
    } else {
      LegalThen(After(w, es[0]), es[1..], rest);
      LegalFirst(w, es[0], es[1..] + rest);
      assert es + rest == [es[0]] + (es[1..] + rest);
    }
  }

  lemma EarlyRace(w: World)
    requires Stands(w, WITH_PAIR, map[], {1, 2}, {LOADED}, map[2 := 2])
    ensures Legal(w, EarlyWindow()) && RevokedInVain(AfterAll(w, EarlyWindow()))
  {
    var w1 := RaceIsOn(w);
    hide Step, Enabled, After, Racing, RevokedInVain, Stands, Legal, AfterAll;
    var p: map<nat, Call> := map[3 := FOUND_NO_ACCESS, 4 := ROTATE_STORED];
    var w2, db := RotationWins(w1, p);
    TwoCallers(3, FOUND_NO_ACCESS, FOUND_NO_ACCESS, 4, ROTATE_STORED, ROTATE_STORED);
    InVain(w2, db, RevokeFindRefresh(2, 0));
    LegalNone(w2);
    LegalFirst(w1, Resume(4, 0), []);
    LegalThen(w, Racing(), [Resume(4, 0)] + []);
  }

  lemma LateRace(w: World)
    requires Stands(w, WITH_PAIR, map[], {1, 2}, {LOADED}, map[2 := 2])
    ensures Legal(w, LateWindow()) && RevokedInVain(AfterAll(w, LateWindow()))
  {
    var w1 := RaceIsOn(w);
    assert Step(WITH_NEW_ACCESS, FOUND_NO_ACCESS, 0) == Effect(WITH_NEW_ACCESS, Continue(FOUND_REFRESH));
    assert w1.history.family == map[2 := 2];
    hide Step, NextFamily, Enabled, After, Racing, RevokedInVain, Stands, Legal, AfterAll;
    var p: map<nat, Call> := map[3 := FOUND_NO_ACCESS, 4 := ROTATE_STORED];
    var w2 := Goes(w1, WITH_NEW_ACCESS, p, {1, 2, 3, 4}, {LOADED}, map[2 := 2], 3);
    FamilyUnchanged(w1.history, FOUND_NO_ACCESS, Step(WITH_NEW_ACCESS, FOUND_NO_ACCESS, 0));
    TwoCallers(3, FOUND_NO_ACCESS, FOUND_REFRESH, 4, ROTATE_STORED, ROTATE_STORED);
    TwoCallers(3, FOUND_REFRESH, FOUND_REFRESH, 4, ROTATE_STORED, ROTATE_STORED);
    var q: map<nat, Call> := map[3 := FOUND_REFRESH, 4 := ROTATE_STORED];
    var w3, db := RotationWins(w2, q);
    InVain(w3, db, RevokeRefresh(2));
    LegalNone(w3);
    LegalFirst(w2, Resume(4, 0), []);
    LegalFirst(w1, Resume(3, 0), [Resume(4, 0)] + []);
    LegalThen(w, Racing(), [Resume(3, 0)] + ([Resume(4, 0)] + []));
  }

  /**
    Both windows are open: from an empty database, a revocation that begins while its token
    is live reports success although a rotation has given the family another live token.
   */
  lemma RevocationCanMissARotation()
    ensures Init(NEW_WORLD) && Legal(NEW_WORLD, Setup())
    ensures var w := AfterAll(NEW_WORLD, Setup());
      && 2 in w.db.refresh && w.db.refresh[2].client == REVOKE.withdraw.client
      && Legal(w, EarlyWindow()) && RevokedInVain(AfterAll(w, EarlyWindow()))
      && Legal(w, LateWindow()) && RevokedInVain(AfterAll(w, LateWindow()))
  {
    var w := PairIsIssued();
    hide Setup, EarlyWindow, LateWindow, RevokedInVain, Legal, AfterAll;
    EarlyRace(w);
    LateRace(w);
  }
}
