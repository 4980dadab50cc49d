/**
  Whole flows, operation after operation: what one operation stores the next one finds,
  and what it ends is refused from then on.
 */
module Flows {
  import opened Wrappers
  import opened Schema
  import opened Calls

  /** The operation run to its end at one instant. */
  function At(db: DB, c: Call, t: Time): Completed
    requires Rank(c) <= 4
  {
    Run(db, c, [t, t, t, t])
  }

  lemma OneStatement(db: DB, c: Call, t: Time)
    requires Rank(c) <= 4 && Step(db, c, t).next.Finish?
    ensures At(db, c, t) == Completed(Step(db, c, t).db, Step(db, c, t).next.reply)
  {}

  lemma TwoStatements(db: DB, c: Call, t: Time)
    requires Rank(c) <= 2 && Step(db, c, t).next.Continue?
    ensures var e := Step(db, c, t);
      && Step(e.db, e.next.call, t).next.Finish?
      && At(db, c, t) == Completed(Step(e.db, e.next.call, t).db, Step(e.db, e.next.call, t).next.reply)
  {
    hide Step, Rank;
    var e := Step(db, c, t);
    RankDecreases(db, c, t);
    RankDecreases(e.db, e.next.call, t);
    var clock := [t, t, t, t];
    assert clock[1..] == [t, t, t];
    assert Run(e.db, e.next.call, clock[1..]) == Completed(Step(e.db, e.next.call, t).db, Step(e.db, e.next.call, t).next.reply);
  }

  // --- the code flow ---

  /** What the client of the code flow asked for and the user confirmed. */
  function Confirmed(client: ClientId, details: Details, user: UserId, t0: Time, t1: Time): RequestRow {
    RequestRow(client, Some(user), details, Some(t1 - t1 % SECOND), true, t0 + AUTH_REQUEST_TTL)
  }

  /** A new request, confirmed and given a code, at times t0 <= t1 <= t2. */
  function WithCode(
      db: DB, id: Id, code: Id, client: ClientId, details: Details, user: UserId, t0: Time, t1: Time, t2: Time): Completed
  {
    var asked := At(db, Request(NewRequest(id, client, None, details)), t0);
    var confirmed := At(asked.db, Request(Complete(id, user)), t1);
    At(confirmed.db, Request(SaveCode(id, code)), t2)
  }

  lemma CodeIsStored(
      db: DB, id: Id, code: Id, client: ClientId, details: Details, user: UserId, t0: Time, t1: Time, t2: Time)
    requires id !in db.requests && code !in db.codes && !HasCode(db, id)
    ensures WithCode(db, id, code, client, details, user, t0, t1, t2) == Completed(
      db.(requests := db.requests[id := Confirmed(client, details, user, t0, t1)], codes := db.codes[code := CodeRow(id, t2 + AUTH_CODE_TTL)]), Ok)
  {
    var asked := db.(requests := db.requests[id := RequestRow(client, None, details, None, false, t0 + AUTH_REQUEST_TTL)]);
    var confirmed := db.(requests := db.requests[id := Confirmed(client, details, user, t0, t1)]);
    assert asked.requests[id := Confirmed(client, details, user, t0, t1)] == confirmed.requests;
    assert !HasCode(confirmed, id);
    hide Run, HasCode;
    OneStatement(db, Request(NewRequest(id, client, None, details)), t0);
    OneStatement(asked, Request(Complete(id, user)), t1);
    OneStatement(confirmed, Request(SaveCode(id, code)), t2);
  }

  lemma ExchangeFinds(db: DB, id: Id, code: Id, t: Time)
    requires code in db.codes && db.codes[code].request == id && id in db.requests
    requires t <= db.codes[code].expires && t <= db.requests[id].expires
    ensures At(db, Request(ByCode(code)), t) == Completed(db, RequestFound(id, db.requests[id]))
  {
    TwoStatements(db, Request(ByCode(code)), t);
    hide Run;
  }

  lemma ExchangeFails(db: DB, code: Id, t: Time)
    requires code !in db.codes
    ensures At(db, Request(ByCode(code)), t) == Completed(db, Failed)
  {
    OneStatement(db, Request(ByCode(code)), t);
    hide Run;
  }

  /**
    Within the five minutes of the code and the thirty of the request, the code leads to
    the request as the user confirmed it; a request takes no second code; and once the
    request is deleted, the code leads nowhere.
   */
  lemma CodeFlow(
      db: DB, id: Id, code: Id, other: Id, client: ClientId, details: Details, user: UserId, t0: Time, t1: Time, t2: Time, t: Time)
    requires id !in db.requests && code !in db.codes && !HasCode(db, id)
    requires t <= t2 + AUTH_CODE_TTL && t <= t0 + AUTH_REQUEST_TTL
    ensures var r := WithCode(db, id, code, client, details, user, t0, t1, t2);
      var used := At(r.db, Request(DeleteRequestById(id)), t);
      && r.reply == Ok
      && At(r.db, Request(ByCode(code)), t).reply == RequestFound(id, Confirmed(client, details, user, t0, t1))
      && At(r.db, Request(SaveCode(id, other)), t) == Completed(r.db, Failed)
      && used.reply == Ok
      && At(used.db, Request(ByCode(code)), t).reply == Failed
  {
    CodeIsStored(db, id, code, client, details, user, t0, t1, t2);
    var r := WithCode(db, id, code, client, details, user, t0, t1, t2);
    hide WithCode;
    assert r.db.codes[code] == CodeRow(id, t2 + AUTH_CODE_TTL) && r.db.requests[id] == Confirmed(client, details, user, t0, t1);
    ExchangeFinds(r.db, id, code, t);
    assert HasCode(r.db, id);
    OneStatement(r.db, Request(SaveCode(id, other)), t);
    OneStatement(r.db, Request(DeleteRequestById(id)), t);
    ExchangeFails(DeleteRequest(r.db, id), code, t);
    hide Run, HasCode;
  }

  /** A new request is found as it was made, until the second in which its thirty minutes end is over. */
  lemma NewRequestIsFound(db: DB, id: Id, client: ClientId, subject: Option<UserId>, details: Details, t0: Time, t: Time)
    requires id !in db.requests
    ensures var r := At(db, Request(NewRequest(id, client, subject, details)), t0);
      var found := RequestFound(id, RequestRow(client, subject, details, None, false, t0 + AUTH_REQUEST_TTL));
      && r.reply == found
      && At(r.db, Request(LoadRequest(id)), t) == Completed(r.db, if t - t % SECOND <= t0 + AUTH_REQUEST_TTL then found else Failed)
  {
    var c := Request(NewRequest(id, client, subject, details));
    OneStatement(db, c, t0);
    OneStatement(At(db, c, t0).db, Request(LoadRequest(id)), t);
    hide Run;
  }

  // --- tokens ---

  lemma IntrospectionAnswer(db: DB, access: Id, client: ClientId, t: Time)
    ensures At(db, Check(Introspect(access, client)), t).reply ==
      if access in db.access && t <= db.access[access].expires && client in db.access[access].audience
         && db.access[access].user in db.users
      then TokenAccepted(db.access[access]) else Failed
  {
    var c := Check(Introspect(access, client));
    if Step(db, c, t).next.Finish? { OneStatement(db, c, t); } else { TwoStatements(db, c, t); }
    hide Run;
  }

  lemma UserinfoAnswer(db: DB, access: Id, t: Time)
    ensures At(db, Check(Userinfo(access)), t).reply ==
      if access in db.access && t <= db.access[access].expires && db.access[access].user in db.users
      then TokenAccepted(db.access[access]) else Failed
  {
    var c := Check(Userinfo(access));
    if Step(db, c, t).next.Finish? { OneStatement(db, c, t); } else { TwoStatements(db, c, t); }
    hide Run;
  }

  /** An access token issued on its own is accepted with what was asked for, at introspection for its audience, until it expires. */
  lemma IssuedAccessWorks(db: DB, req: TokenRequest, access: Id, client: ClientId, t0: Time, t: Time)
    requires req.subject.Some? && req.subject.value in db.users && access !in db.access
    ensures var r := At(db, Issue(IssueAccess(req, access)), t0);
      var row := AccessRow(req.client, req.subject.value, None, req.audience, req.scopes, t0 + ACCESS_TOKEN_TTL);
      && r.reply == AccessIssued(access, t0 + ACCESS_TOKEN_TTL)
      && At(r.db, Check(Introspect(access, client)), t).reply ==
           (if t <= t0 + ACCESS_TOKEN_TTL && client in req.audience then TokenAccepted(row) else Failed)
      && At(r.db, Check(Userinfo(access)), t).reply == (if t <= t0 + ACCESS_TOKEN_TTL then TokenAccepted(row) else Failed)
  {
    var c := Issue(IssueAccess(req, access));
    var r := At(db, c, t0);
    OneStatement(db, c, t0);
    IntrospectionAnswer(r.db, access, client, t);
    UserinfoAnswer(r.db, access, t);
    hide Run;
  }

  /** The pair that was asked for is accepted for what it was issued for, as long as each token lives. */
  lemma IssuedPairWorks(db: DB, req: TokenRequest, access: Id, refresh: Id, client: ClientId, t0: Time, t: Time)
    requires req.subject.Some? && req.subject.value in db.users && access !in db.access && refresh !in db.refresh
    ensures var r := At(db, Issue(IssuePair(req, access, refresh)), t0);
      var row := AccessRow(req.client, req.subject.value, Some(refresh), req.audience, req.scopes, t0 + ACCESS_TOKEN_TTL);
      var authTime := if req.authTime.Some? then req.authTime.value else t0;
      && r.reply == PairIssued(access, refresh, t0 + ACCESS_TOKEN_TTL)
      && At(r.db, Check(Introspect(access, client)), t).reply ==
           (if t <= t0 + ACCESS_TOKEN_TTL && client in req.audience then TokenAccepted(row) else Failed)
      && At(r.db, Check(Userinfo(access)), t).reply == (if t <= t0 + ACCESS_TOKEN_TTL then TokenAccepted(row) else Failed)
      && At(r.db, Issue(LoadRefresh(refresh)), t).reply ==
           (if t > t0 + REFRESH_TOKEN_TTL then Failed
            else RefreshFound(RefreshRequest(refresh, req.client, req.subject.value, req.scopes, req.audience, authTime)))
  {
    var c := Issue(IssuePair(req, access, refresh));
    var r := At(db, c, t0);
    TwoStatements(db, c, t0);
    IntrospectionAnswer(r.db, access, client, t);
    UserinfoAnswer(r.db, access, t);
    OneStatement(r.db, Issue(LoadRefresh(refresh)), t);
    hide Run;
  }

  /** The rotation of a refresh token that was looked up, with the scopes now asked for. */
  function RotationOf(current: RefreshRequest, scopes: seq<string>, access: Id, refresh: Id): IssueCall {
    Rotate(TokenRequest(current.client, Some(current.user), current.audience, scopes, Some(current.authTime)),
           current.id, access, refresh)
  }

  lemma RotationOutcome(db: DB, current: RefreshRequest, scopes: seq<string>, access: Id, refresh: Id, t0: Time)
    requires current.id in db.refresh && t0 <= db.refresh[current.id].expires && current.user in db.users
    requires var row := db.refresh[current.id];
      row.user == current.user && row.client == current.client && row.audience == current.audience
    requires access !in db.access && refresh !in db.refresh
    ensures var r := At(db, Issue(RotationOf(current, scopes, access, refresh)), t0);
      && r.reply == PairIssued(access, refresh, t0 + ACCESS_TOKEN_TTL)
      && current.id !in r.db.refresh
      && refresh in r.db.refresh
      && r.db.refresh[refresh] == RefreshRow(current.user, current.client, scopes, current.audience,
                                             db.refresh[current.id].authTime, t0 + REFRESH_TOKEN_TTL)
      && access in r.db.access
      && r.db.access[access] == AccessRow(current.client, current.user, Some(refresh), current.audience, scopes, t0 + ACCESS_TOKEN_TTL)
      && (forall id | id in db.access && db.access[id].refresh == Some(current.id) :: id !in r.db.access)
      && r.db.users == db.users
  {
    TwoStatements(db, Issue(RotationOf(current, scopes, access, refresh)), t0);
    hide Run;
  }

  /**
    A rotation replaces the old pair by the new one: the old refresh token and the access
    tokens tied to it are refused, the new ones are accepted with the scopes asked for.
   */
  lemma RotationSupersedes(
      db: DB, current: RefreshRequest, scopes: seq<string>, access: Id, refresh: Id, client: ClientId, previous: Id, t0: Time, t: Time)
    requires current.id in db.refresh && t0 <= db.refresh[current.id].expires && current.user in db.users
    requires var row := db.refresh[current.id];
      row.user == current.user && row.client == current.client && row.audience == current.audience
    requires access !in db.access && refresh !in db.refresh
    requires previous in db.access && db.access[previous].refresh == Some(current.id)
    ensures var r := At(db, Issue(RotationOf(current, scopes, access, refresh)), t0);
      && r.reply == PairIssued(access, refresh, t0 + ACCESS_TOKEN_TTL)
      && At(r.db, Issue(LoadRefresh(current.id)), t).reply == Failed
      && At(r.db, Check(Introspect(previous, client)), t).reply == Failed
      && At(r.db, Issue(LoadRefresh(refresh)), t).reply ==
           (if t > t0 + REFRESH_TOKEN_TTL then Failed
            else RefreshFound(RefreshRequest(refresh, current.client, current.user, scopes, current.audience, db.refresh[current.id].authTime)))
      && At(r.db, Check(Introspect(access, client)), t).reply ==
           (if t <= t0 + ACCESS_TOKEN_TTL && client in current.audience
            then TokenAccepted(AccessRow(current.client, current.user, Some(refresh), current.audience, scopes, t0 + ACCESS_TOKEN_TTL))
            else Failed)
  {
    RotationOutcome(db, current, scopes, access, refresh, t0);
    var r := At(db, Issue(RotationOf(current, scopes, access, refresh)), t0);
    OneStatement(r.db, Issue(LoadRefresh(current.id)), t);
    OneStatement(r.db, Issue(LoadRefresh(refresh)), t);
    IntrospectionAnswer(r.db, previous, client, t);
    IntrospectionAnswer(r.db, access, client, t);
    hide Run, At;
  }

  // --- sessions ---

  /** A session is found with its user until it expires, and not after it was revoked. */
  lemma SessionFlow(db: DB, session: Id, user: UserId, t0: Time, t: Time)
    requires session !in db.sessions && user in db.users
    ensures var r := At(db, Check(IssueSession(session, user)), t0);
      var found := At(r.db, Check(LookupSession(session)), t);
      && r.reply == SessionFound(session, user, t0 + SESSION_TTL)
      && (t <= t0 + SESSION_TTL ==> found == Completed(r.db, r.reply))
      && (t > t0 + SESSION_TTL ==> found == Completed(r.db.(sessions := r.db.sessions - {session}), Failed))
      && At(At(r.db, Check(RevokeSession(session)), t).db, Check(LookupSession(session)), t).reply == Failed
  {
    TwoStatements(db, Check(IssueSession(session, user)), t0);
    var r := At(db, Check(IssueSession(session, user)), t0);
    TwoStatements(r.db, Check(LookupSession(session)), t);
    OneStatement(r.db, Check(RevokeSession(session)), t);
    OneStatement(DeleteSession(r.db, session), Check(LookupSession(session)), t);
    hide Run;
  }

  // --- clients ---

  /** An app gets one client, and another one only after the first was removed. */
  lemma ClientFlow(db: DB, app: string, client: ClientId, other: ClientId, t: Time)
    requires app != "" && !HasClient(db.clients, app) && client !in db.clients && other !in db.clients && client != other
    ensures var r := At(db, Admin(Provision(app, client)), t);
      var removed := At(r.db, Admin(DeleteClient(app)), t);
      && r.reply == Ok && r.db.clients == db.clients[client := app]
      && At(r.db, Admin(Provision(app, other)), t) == Completed(r.db, Failed)
      && removed.reply == Ok && removed.db.clients == db.clients
      && At(removed.db, Admin(Provision(app, other)), t).reply == Ok
  {
    var provisioned := db.(clients := db.clients[client := app]);
    OneStatement(db, Admin(Provision(app, client)), t);
    assert HasClient(provisioned.clients, app) by { assert provisioned.clients[client] == app; }
    assert forall c | c in db.clients :: db.clients[c] != app;
    assert ClientOf(provisioned.clients, app) == Some(client);
    OneStatement(provisioned, Admin(Provision(app, other)), t);
    OneStatement(provisioned, Admin(DeleteClient(app)), t);
    var removed := At(provisioned, Admin(DeleteClient(app)), t).db;
    assert provisioned.clients - {client} == db.clients;
    OneStatement(removed, Admin(Provision(app, other)), t);
    hide Run, ClientOf, HasClient;
  }

  // --- housekeeping ---

  /** Nothing that expired before the cutoff is left of the table. */
  predicate Swept(db: DB, table: Table, cutoff: Time) {
    match table
    case Sessions => forall id | id in db.sessions :: db.sessions[id].expires >= cutoff
    case Requests => forall id | id in db.requests :: db.requests[id].expires >= cutoff
    case Codes => forall code | code in db.codes :: db.codes[code].expires >= cutoff
    case Access => forall id | id in db.access :: db.access[id].expires >= cutoff
    case Refresh => forall id | id in db.refresh :: db.refresh[id].expires >= cutoff
  }

  lemma SweepsIts(db: DB, table: Table, cutoff: Time)
    ensures Swept(DeleteExpired(db, table, cutoff), table, cutoff)
    ensures forall other | Swept(db, other, cutoff) :: Swept(DeleteExpired(db, table, cutoff), other, cutoff)
  {}

  /** A purge of the token store leaves no expired row in any of its four tables. */
  lemma PurgeLeavesNothingExpired(db: DB, cutoff: Time, t: Time)
    ensures var r := At(db, Admin(Purge(cutoff, Requests, [Codes, Access, Refresh])), t);
      && r.reply == Ok
      && forall table | table != Sessions :: Swept(r.db, table, cutoff)
  {
    var d1 := DeleteExpired(db, Requests, cutoff);
    var d2 := DeleteExpired(d1, Codes, cutoff);
    var d3 := DeleteExpired(d2, Access, cutoff);
    var d4 := DeleteExpired(d3, Refresh, cutoff);
    hide DeleteExpired, Swept;
    SweepsIts(db, Requests, cutoff);
    SweepsIts(d1, Codes, cutoff);
    SweepsIts(d2, Access, cutoff);
    SweepsIts(d3, Refresh, cutoff);
    var clock := [t, t, t, t];
    assert clock[1..] == [t, t, t] && clock[1..][1..] == [t, t] && clock[1..][1..][1..] == [t];
    assert [Codes, Access, Refresh][1..] == [Access, Refresh] && [Access, Refresh][1..] == [Refresh] && [Refresh][1..] == [];
    assert Run(d3, Admin(Purge(cutoff, Refresh, [])), [t]) == Completed(d4, Ok);
    assert Run(d2, Admin(Purge(cutoff, Access, [Refresh])), [t, t]) == Completed(d4, Ok);
    assert Run(d1, Admin(Purge(cutoff, Codes, [Access, Refresh])), [t, t, t]) == Completed(d4, Ok);
  }
}
