/**
  The purge of expired rows, and what one statement can tell of it.

  Two databases are alike at a given time when they differ only in rows that nobody can
  find any more. A purge that stays far enough behind the clock leaves an alike database,
  and every statement keeps alike databases alike; most statements also answer alike, and
  the three that do not are told apart exactly.
 */
module Purging {
  import opened Wrappers
  import opened Schema
  import opened Calls
  import opened Interleaving
  import Codes
  import Ties

  /** How far behind the clock a purge must stay. */
  const SAFE_GRACE: Time := AUTH_REQUEST_TTL - AUTH_CODE_TTL + SECOND - 1

  // --- what can still be found at time t ---

  predicate RequestLives(db: DB, id: Id, t: Time) {
    id in db.requests && AfterCurrentTimestamp(db.requests[id].expires, t)
  }

  /** Every row that can be found at one site at time `t` is stored at the other. */
  ghost predicate TokensCovered(db: DB, other: DB, t: Time) {
    && (forall id | id in db.access && db.access[id].expires >= t ::
          id in other.access && other.access[id] == db.access[id])
    && (forall id | id in db.refresh && db.refresh[id].expires >= t ::
          id in other.refresh && other.refresh[id] == db.refresh[id])
  }

  ghost predicate SessionsCovered(db: DB, other: DB, t: Time) {
    forall id | id in db.sessions && db.sessions[id].expires >= t ::
      id in other.sessions && other.sessions[id] == db.sessions[id]
  }

  /** A code counts while its request does, expired or not: it still takes the request's only place. */
  ghost predicate RequestsCovered(db: DB, other: DB, t: Time) {
    && (forall id | id in db.requests && AfterCurrentTimestamp(db.requests[id].expires, t) ::
          id in other.requests && other.requests[id] == db.requests[id])
    && (forall code | code in db.codes && RequestLives(db, db.codes[code].request, t) ::
          code in other.codes && other.codes[code] == db.codes[code])
  }

  ghost predicate SameTokens(db1: DB, db2: DB, t: Time) {
    TokensCovered(db1, db2, t) && TokensCovered(db2, db1, t)
  }

  ghost predicate SameRequests(db1: DB, db2: DB, t: Time) {
    RequestsCovered(db1, db2, t) && RequestsCovered(db2, db1, t)
  }

  ghost predicate SameSessions(db1: DB, db2: DB, t: Time) {
    SessionsCovered(db1, db2, t) && SessionsCovered(db2, db1, t)
  }

  ghost predicate Alike(db1: DB, db2: DB, t: Time) {
    && db1.users == db2.users && db1.clients == db2.clients
    && SameTokens(db1, db2, t) && SameRequests(db1, db2, t) && SameSessions(db1, db2, t)
  }

  lemma SecondsPass(t: Time, later: Time)
    requires t <= later
    ensures t - t % SECOND <= later - later % SECOND
  {}

  lemma AlikeLater(db1: DB, db2: DB, t: Time, later: Time)
    requires Alike(db1, db2, t) && t <= later
    ensures Alike(db1, db2, later)
  {
    SecondsPass(t, later);
  }

  // --- what every site satisfies ---

  /** No id is both an access and a refresh token, and a stored refresh token outlives what it ties. */
  ghost predicate TokensOrdered(db: DB) {
    && (forall id | id in db.access :: id !in db.refresh)
    && (forall id | id in db.access && db.access[id].refresh.Some? && db.access[id].refresh.value in db.refresh ::
          db.access[id].expires <= db.refresh[db.access[id].refresh.value].expires)
  }

  /** Nothing expires later than a lifetime from now, and a code at most 25 minutes before its request. */
  ghost predicate Bounded(db: DB, now: Time) {
    && (forall id | id in db.access :: db.access[id].expires <= now + ACCESS_TOKEN_TTL)
    && (forall id | id in db.requests :: db.requests[id].expires <= now + AUTH_REQUEST_TTL)
    && (forall code | code in db.codes && db.codes[code].request in db.requests ::
          db.requests[db.codes[code].request].expires <= db.codes[code].expires + AUTH_REQUEST_TTL - AUTH_CODE_TTL)
  }

  ghost predicate Healthy(db: DB, now: Time) {
    Codes.CodesOwned(db) && TokensOrdered(db) && Bounded(db, now)
  }

  lemma TokenPurgeUnseen(db: DB, table: Table, cutoff: Time, t: Time)
    requires table == Access || table == Refresh || table == Sessions
    requires cutoff <= t
    ensures Alike(DeleteExpired(db, table, cutoff), db, t)
  {}

  lemma RequestPurgeUnseen(db: DB, cutoff: Time, t: Time)
    requires Codes.CodesOwned(db) && cutoff <= t - SECOND + 1
    ensures Alike(DeleteExpired(db, Requests, cutoff), db, t)
  {}

  /** A code expires at most 25 minutes before its request. */
  lemma CodePurgeUnseen(db: DB, cutoff: Time, t: Time)
    requires Healthy(db, t) && cutoff <= t - SAFE_GRACE
    ensures Alike(DeleteExpired(db, Codes, cutoff), db, t)
  {
    forall code | code in db.codes && RequestLives(db, db.codes[code].request, t)
      ensures db.codes[code].expires >= cutoff
    {}
  }

  /** A purge statement that stays the safe grace behind the clock removes nothing that can be found. */
  lemma PurgeUnseen(db: DB, table: Table, cutoff: Time, t: Time)
    requires Healthy(db, t) && cutoff <= t - SAFE_GRACE
    ensures Alike(DeleteExpired(db, table, cutoff), db, t)
  {
    match table
    case Requests => RequestPurgeUnseen(db, cutoff, t);
    case Codes => CodePurgeUnseen(db, cutoff, t);
    case _ => TokenPurgeUnseen(db, table, cutoff, t);
  }

  // --- one statement, on two sites that look alike ---

  /** Statements whose course does not depend on rows that can no longer be found. */
  predicate Plain(c: Call) {
    && (c.Withdraw? ==> c.withdraw.Terminate? || c.withdraw.TerminateRefresh?)
    && (c.Request? ==> !c.request.ByCode?)
    && (c.Check? ==> !c.check.LookupSession? && !c.check.DropSession?)
    && (c.Admin? ==> !c.admin.Purge?)
  }

  /** Operations that look at rows without asking whether they expired. */
  predicate IgnoresExpiry(c: Call) {
    || (c.Withdraw? && c.withdraw.Revoke?)
    || (c.Request? && (c.request.Complete? || c.request.SaveCode?))
  }

  ghost predicate Agree(c: Call, e1: Effect, e2: Effect) {
    if IgnoresExpiry(c) then e1.next.Finish? && e2.next.Finish? else e1.next == e2.next
  }

  lemma AccessStored(db1: DB, db2: DB, id: Id, row: AccessRow, t: Time)
    requires SameTokens(db1, db2, t)
    ensures SameTokens(db1.(access := db1.access[id := row]), db2.(access := db2.access[id := row]), t)
  {}

  lemma RefreshStored(db1: DB, db2: DB, id: Id, row: RefreshRow, t: Time)
    requires SameTokens(db1, db2, t)
    ensures SameTokens(db1.(refresh := db1.refresh[id := row]), db2.(refresh := db2.refresh[id := row]), t)
  {}

  lemma TokenDeleted(db1: DB, db2: DB, id: Id, t: Time)
    requires SameTokens(db1, db2, t)
    ensures SameTokens(DeleteAccess(db1, id), DeleteAccess(db2, id), t)
  {}

  lemma RefreshDeleted(db1: DB, db2: DB, id: Id, t: Time)
    requires SameTokens(db1, db2, t)
    ensures SameTokens(DeleteRefresh(db1, id), DeleteRefresh(db2, id), t)
  {}

  lemma TiedDeleted(db1: DB, db2: DB, id: Id, spare: Option<Id>, t: Time)
    requires SameTokens(db1, db2, t)
    ensures SameTokens(DeleteAccessTiedTo(db1, id, spare), DeleteAccessTiedTo(db2, id, spare), t)
  {}

  lemma IssueRepliesAgree(db1: DB, db2: DB, c: IssueCall, t: Time)
    requires db1.users == db2.users && SameTokens(db1, db2, t)
    requires c.LoadRefresh? || (c.access !in db1.access && c.access !in db2.access) || c.PairRefresh? || c.RotateTx?
    requires c.PairRefresh? || c.RotateTx? ==> c.refresh !in db1.refresh && c.refresh !in db2.refresh
    ensures IssueStep(db1, c, t).next == IssueStep(db2, c, t).next
  {}

  lemma RotateTxAgrees(db1: DB, db2: DB, c: IssueCall, t: Time)
    requires c.RotateTx? && db1.users == db2.users && SameTokens(db1, db2, t)
    requires c.refresh !in db1.refresh && c.refresh !in db2.refresh
    ensures SameTokens(IssueStep(db1, c, t).db, IssueStep(db2, c, t).db, t)
  {
    if c.currentId in db1.refresh && db1.refresh[c.currentId].expires >= t {
      var row := RotatedRow(db1.refresh[c.currentId], c.scopes, t);
      var cut1, cut2 := DeleteRefresh(db1, c.currentId), DeleteRefresh(db2, c.currentId);
      RefreshDeleted(db1, db2, c.currentId, t);
      RefreshStored(cut1, cut2, c.refresh, row, t);
      TiedDeleted(cut1.(refresh := cut1.refresh[c.refresh := row]), cut2.(refresh := cut2.refresh[c.refresh := row]),
                  c.currentId, Some(c.access), t);
      assert db2.refresh[c.currentId] == db1.refresh[c.currentId];
      hide SameTokens;
    }
  }

  lemma IssueAgrees(db1: DB, db2: DB, c: IssueCall, t: Time)
    requires db1.users == db2.users && SameTokens(db1, db2, t)
    requires forall id | id in Reserved(Issue(c)) :: id !in Keys(db1) && id !in Keys(db2)
    ensures SameTokens(IssueStep(db1, c, t).db, IssueStep(db2, c, t).db, t)
    ensures IssueStep(db1, c, t).next == IssueStep(db2, c, t).next
  {
    hide SameTokens;
    assert c.IssueAccess? || c.IssuePair? || c.Rotate? ==> c.access in Reserved(Issue(c));
    assert c.PairRefresh? || c.RotateTx? ==> c.refresh in Reserved(Issue(c));
    IssueRepliesAgree(db1, db2, c, t);
    match c
    case IssueAccess(req, access) =>
      if req.subject.Some? { AccessStored(db1, db2, access, AccessRowFor(req, req.subject.value, None, t), t); }
    case IssuePair(req, access, refresh) =>
      if req.subject.Some? { AccessStored(db1, db2, access, AccessRowFor(req, req.subject.value, Some(refresh), t), t); }
    case PairRefresh(req, _, refresh, _) =>
      if req.subject.Some? { RefreshStored(db1, db2, refresh, RefreshRowFor(req, req.subject.value, t), t); }
    case Rotate(req, _, access, refresh) =>
      if req.subject.Some? { AccessStored(db1, db2, access, AccessRowFor(req, req.subject.value, Some(refresh), t), t); }
    case RotateTx(_, _, _, _, _) => RotateTxAgrees(db1, db2, c, t);
    case LoadRefresh(_) =>
  }

  lemma AccessOfDeleted(db1: DB, db2: DB, user: UserId, client: ClientId, t: Time)
    requires SameTokens(db1, db2, t)
    ensures SameTokens(DeleteAccessOf(db1, user, client), DeleteAccessOf(db2, user, client), t)
  {}

  lemma RefreshOfDeleted(db1: DB, db2: DB, user: UserId, client: ClientId, t: Time)
    requires SameTokens(db1, db2, t)
    ensures SameTokens(DeleteRefreshOf(db1, user, client), DeleteRefreshOf(db2, user, client), t)
  {}

  lemma TerminateAgrees(db1: DB, db2: DB, c: WithdrawCall, t: Time)
    requires SameTokens(db1, db2, t) && Plain(Withdraw(c))
    ensures SameTokens(WithdrawStep(db1, c, t).db, WithdrawStep(db2, c, t).db, t)
    ensures WithdrawStep(db1, c, t).next == WithdrawStep(db2, c, t).next
  {
    hide SameTokens;
    match c
    case Terminate(subject, client) => if subject.Some? { AccessOfDeleted(db1, db2, subject.value, client, t); }
    case TerminateRefresh(user, client) => RefreshOfDeleted(db1, db2, user, client, t);
  }

  lemma RequestsChain(a: DB, b: DB, c: DB, t: Time)
    requires SameRequests(a, b, t) && SameRequests(b, c, t)
    ensures SameRequests(a, c, t)
  {}

  lemma CodeStored(db1: DB, db2: DB, code: Id, row: CodeRow, t: Time)
    requires SameRequests(db1, db2, t)
    ensures SameRequests(db1.(codes := db1.codes[code := row]), db2.(codes := db2.codes[code := row]), t)
  {}

  lemma DeadCodeStored(db: DB, code: Id, row: CodeRow, t: Time)
    requires !RequestLives(db, row.request, t) && code !in db.codes
    ensures SameRequests(db.(codes := db.codes[code := row]), db, t)
  {}

  lemma LivePlaceTaken(db1: DB, db2: DB, id: Id, t: Time)
    requires SameRequests(db1, db2, t) && RequestLives(db1, id, t)
    ensures RequestLives(db2, id, t) && (HasCode(db1, id) ==> HasCode(db2, id))
  {}

  /** A live request has the same code, or none, at both sites; the code of a dead one does not count. */
  lemma SaveCodeAgrees(db1: DB, db2: DB, c: RequestCall, t: Time)
    requires SameRequests(db1, db2, t) && c.SaveCode? && c.code !in db1.codes && c.code !in db2.codes
    ensures SameRequests(RequestStep(db1, c, t).db, RequestStep(db2, c, t).db, t)
  {
    var row := CodeRow(c.id, t + AUTH_CODE_TTL);
    if RequestLives(db1, c.id, t) {
      LivePlaceTaken(db1, db2, c.id, t);
      LivePlaceTaken(db2, db1, c.id, t);
      CodeStored(db1, db2, c.code, row, t);
      hide SameRequests, HasCode;
    } else {
      assert !RequestLives(db2, c.id, t);
      DeadCodeStored(db1, c.code, row, t);
      DeadCodeStored(db2, c.code, row, t);
      var after1, after2 := RequestStep(db1, c, t).db, RequestStep(db2, c, t).db;
      assert SameRequests(db1, db1, t) && SameRequests(db2, db2, t);
      assert after1 == db1 || after1 == db1.(codes := db1.codes[c.code := row]);
      assert after2 == db2 || after2 == db2.(codes := db2.codes[c.code := row]);
      hide RequestStep;
      RequestsChain(after1, db1, db2, t);
      assert SameRequests(db2, after2, t);
      RequestsChain(after1, db2, after2, t);
    }
  }

  lemma NewRequestAgrees(db1: DB, db2: DB, c: RequestCall, t: Time)
    requires SameRequests(db1, db2, t) && c.NewRequest? && Codes.CodesOwned(db1) && Codes.CodesOwned(db2)
    requires c.id !in db1.requests && c.id !in db2.requests
    ensures SameRequests(RequestStep(db1, c, t).db, RequestStep(db2, c, t).db, t)
    ensures RequestStep(db1, c, t).next == RequestStep(db2, c, t).next
  {}

  lemma RequestDeleted(db1: DB, db2: DB, id: Id, t: Time)
    requires SameRequests(db1, db2, t)
    ensures SameRequests(DeleteRequest(db1, id), DeleteRequest(db2, id), t)
  {}

  lemma CompleteCovered(db1: DB, db2: DB, id: Id, user: UserId, now: Time, t: Time)
    requires SameRequests(db1, db2, t) && id in db1.requests
    ensures RequestsCovered(CompleteRequest(db1, id, user, now), if id in db2.requests then CompleteRequest(db2, id, user, now) else db2, t)
    ensures id !in db2.requests ==> RequestsCovered(db2, CompleteRequest(db1, id, user, now), t)
  {}

  lemma CompleteAgrees(db1: DB, db2: DB, id: Id, user: UserId, t: Time)
    requires SameRequests(db1, db2, t)
    ensures SameRequests(RequestStep(db1, Complete(id, user), t).db, RequestStep(db2, Complete(id, user), t).db, t)
  {
    if id in db1.requests { CompleteCovered(db1, db2, id, user, t, t); }
    if id in db2.requests { CompleteCovered(db2, db1, id, user, t, t); }
    hide RequestsCovered;
  }

  lemma RequestAgrees(db1: DB, db2: DB, c: RequestCall, t: Time)
    requires SameRequests(db1, db2, t) && !c.ByCode? && Codes.CodesOwned(db1) && Codes.CodesOwned(db2)
    requires forall id | id in Reserved(Request(c)) :: id !in Keys(db1) && id !in Keys(db2)
    ensures SameRequests(RequestStep(db1, c, t).db, RequestStep(db2, c, t).db, t)
    ensures Agree(Request(c), RequestStep(db1, c, t), RequestStep(db2, c, t))
  {
    match c
    case SaveCode(_, code) => assert code in Reserved(Request(c)); SaveCodeAgrees(db1, db2, c, t);
    case NewRequest(id, _, _, _) => assert id in Reserved(Request(c)); NewRequestAgrees(db1, db2, c, t);
    case DeleteRequestById(id) => RequestDeleted(db1, db2, id, t);
    case Complete(id, user) => CompleteAgrees(db1, db2, id, user, t);
    case LoadRequest(_) =>
  }

  lemma CheckSessionsAgree(db1: DB, db2: DB, c: CheckCall, t: Time)
    requires db1.users == db2.users && SameSessions(db1, db2, t) && Plain(Check(c))
    requires c.IssueSession? ==> c.session !in db1.sessions && c.session !in db2.sessions
    ensures SameSessions(CheckStep(db1, c, t).db, CheckStep(db2, c, t).db, t)
  {}

  lemma CheckRepliesAgree(db1: DB, db2: DB, c: CheckCall, t: Time)
    requires db1.users == db2.users && SameTokens(db1, db2, t) && Plain(Check(c))
    requires c.IssueSession? ==> c.session !in db1.sessions && c.session !in db2.sessions
    ensures CheckStep(db1, c, t).next == CheckStep(db2, c, t).next
  {}

  lemma SignOutAgrees(db1: DB, db2: DB, user: UserId, t: Time)
    requires SameTokens(db1, db2, t) && SameSessions(db1, db2, t)
    ensures SameTokens(RevokeSessions(db1, user), RevokeSessions(db2, user), t)
    ensures SameSessions(RevokeSessions(db1, user), RevokeSessions(db2, user), t)
  {}

  lemma DeleteUserAgrees(db1: DB, db2: DB, user: UserId, t: Time)
    requires SameTokens(db1, db2, t) && SameSessions(db1, db2, t)
    ensures SameTokens(DeleteUser(db1, user), DeleteUser(db2, user), t)
    ensures SameSessions(DeleteUser(db1, user), DeleteUser(db2, user), t)
  {}

  lemma ClientDeleted(db1: DB, db2: DB, client: ClientId, t: Time)
    requires SameTokens(db1, db2, t)
    ensures SameTokens(DeleteRefreshOfClient(DeleteAccessOfClient(db1, client), client),
                       DeleteRefreshOfClient(DeleteAccessOfClient(db2, client), client), t)
  {}

  lemma UntouchedTokens(db1: DB, db2: DB, after1: DB, after2: DB, t: Time)
    requires SameTokens(db1, db2, t)
    requires after1.access == db1.access && after1.refresh == db1.refresh
    requires after2.access == db2.access && after2.refresh == db2.refresh
    ensures SameTokens(after1, after2, t)
  {}

  lemma UntouchedSessions(db1: DB, db2: DB, after1: DB, after2: DB, t: Time)
    requires SameSessions(db1, db2, t) && after1.sessions == db1.sessions && after2.sessions == db2.sessions
    ensures SameSessions(after1, after2, t)
  {}

  lemma UntouchedRequests(db1: DB, db2: DB, after1: DB, after2: DB, t: Time)
    requires SameRequests(db1, db2, t)
    requires after1.requests == db1.requests && after1.codes == db1.codes
    requires after2.requests == db2.requests && after2.codes == db2.codes
    ensures SameRequests(after1, after2, t)
  {}

  lemma UserChangeAgrees(db1: DB, db2: DB, user: UserId, row: UserRow, t: Time)
    requires Alike(db1, db2, t) && user in db1.users
    ensures Alike(UpdateUser(db1, user, row), UpdateUser(db2, user, row), t)
    ensures Alike(RevokeSessions(UpdateUser(db1, user, row), user), RevokeSessions(UpdateUser(db2, user, row), user), t)
  {
    hide SameTokens, SameSessions, SameRequests;
    var changed1, changed2 := UpdateUser(db1, user, row), UpdateUser(db2, user, row);
    UntouchedTokens(db1, db2, changed1, changed2, t);
    UntouchedSessions(db1, db2, changed1, changed2, t);
    UntouchedRequests(db1, db2, changed1, changed2, t);
    SignOutAgrees(changed1, changed2, user, t);
    UntouchedRequests(db1, db2, RevokeSessions(changed1, user), RevokeSessions(changed2, user), t);
  }

  lemma CredentialAgrees(db1: DB, db2: DB, c: AdminCall, t: Time)
    requires Alike(db1, db2, t) && (c.SetPassword? || c.SetAdmin?)
    ensures Alike(AdminStep(db1, c, t).db, AdminStep(db2, c, t).db, t)
    ensures AdminStep(db1, c, t).next == AdminStep(db2, c, t).next
  {
    if c.user in db1.users {
      var row := if c.SetPassword? then db1.users[c.user].(passwordHash := c.hash) else db1.users[c.user].(isAdmin := c.admin);
      UserChangeAgrees(db1, db2, c.user, row, t);
      hide SameTokens, SameSessions, SameRequests, RevokeSessions;
    }
  }

  lemma DeleteClientAgrees(db1: DB, db2: DB, c: AdminCall, t: Time)
    requires Alike(db1, db2, t) && c.DeleteClient?
    ensures Alike(AdminStep(db1, c, t).db, AdminStep(db2, c, t).db, t)
    ensures AdminStep(db1, c, t).next == AdminStep(db2, c, t).next
  {
    var after1, after2 := AdminStep(db1, c, t).db, AdminStep(db2, c, t).db;
    if ClientOf(db1.clients, c.app).Some? {
      var client := ClientOf(db1.clients, c.app).value;
      ClientDeleted(db1, db2, client, t);
      var cut1 := DeleteRefreshOfClient(DeleteAccessOfClient(db1, client), client);
      var cut2 := DeleteRefreshOfClient(DeleteAccessOfClient(db2, client), client);
      hide SameTokens, SameSessions, SameRequests;
      UntouchedTokens(cut1, cut2, after1, after2, t);
      UntouchedSessions(db1, db2, after1, after2, t);
      UntouchedRequests(db1, db2, after1, after2, t);
    }
  }

  lemma IssueStepAgrees(db1: DB, db2: DB, c: IssueCall, t: Time)
    requires Alike(db1, db2, t) && Plain(Issue(c))
    requires forall id | id in Reserved(Issue(c)) :: id !in Keys(db1) && id !in Keys(db2)
    ensures Alike(IssueStep(db1, c, t).db, IssueStep(db2, c, t).db, t)
    ensures Agree(Issue(c), IssueStep(db1, c, t), IssueStep(db2, c, t))
  {
    var after1, after2 := IssueStep(db1, c, t).db, IssueStep(db2, c, t).db;
    IssueAgrees(db1, db2, c, t);
    IssueKeeps(db1, c, t);
    IssueKeeps(db2, c, t);
    hide IssueStep, SameTokens, SameSessions, SameRequests;
    UntouchedSessions(db1, db2, after1, after2, t);
    UntouchedRequests(db1, db2, after1, after2, t);
  }

  lemma WithdrawStepAgrees(db1: DB, db2: DB, c: WithdrawCall, t: Time)
    requires Alike(db1, db2, t) && Plain(Withdraw(c))
    ensures Alike(WithdrawStep(db1, c, t).db, WithdrawStep(db2, c, t).db, t)
    ensures Agree(Withdraw(c), WithdrawStep(db1, c, t), WithdrawStep(db2, c, t))
  {
    var after1, after2 := WithdrawStep(db1, c, t).db, WithdrawStep(db2, c, t).db;
    TerminateAgrees(db1, db2, c, t);
    WithdrawKeeps(db1, c, t);
    WithdrawKeeps(db2, c, t);
    hide WithdrawStep, SameTokens, SameSessions, SameRequests;
    UntouchedSessions(db1, db2, after1, after2, t);
    UntouchedRequests(db1, db2, after1, after2, t);
  }

  lemma RequestStepAgrees(db1: DB, db2: DB, c: RequestCall, t: Time)
    requires Alike(db1, db2, t) && Plain(Request(c))
    requires Codes.CodesOwned(db1) && Codes.CodesOwned(db2)
    requires forall id | id in Reserved(Request(c)) :: id !in Keys(db1) && id !in Keys(db2)
    ensures Alike(RequestStep(db1, c, t).db, RequestStep(db2, c, t).db, t)
    ensures Agree(Request(c), RequestStep(db1, c, t), RequestStep(db2, c, t))
  {
    var after1, after2 := RequestStep(db1, c, t).db, RequestStep(db2, c, t).db;
    RequestAgrees(db1, db2, c, t);
    RequestKeeps(db1, c, t);
    RequestKeeps(db2, c, t);
    hide RequestStep, SameTokens, SameSessions, SameRequests;
    UntouchedTokens(db1, db2, after1, after2, t);
    UntouchedSessions(db1, db2, after1, after2, t);
  }

  lemma CheckStepAgrees(db1: DB, db2: DB, c: CheckCall, t: Time)
    requires Alike(db1, db2, t) && Plain(Check(c))
    requires forall id | id in Reserved(Check(c)) :: id !in Keys(db1) && id !in Keys(db2)
    ensures Alike(CheckStep(db1, c, t).db, CheckStep(db2, c, t).db, t)
    ensures Agree(Check(c), CheckStep(db1, c, t), CheckStep(db2, c, t))
  {
    var after1, after2 := CheckStep(db1, c, t).db, CheckStep(db2, c, t).db;
    assert c.IssueSession? ==> c.session in Reserved(Check(c));
    CheckSessionsAgree(db1, db2, c, t);
    CheckRepliesAgree(db1, db2, c, t);
    CheckKeeps(db1, c, t);
    CheckKeeps(db2, c, t);
    hide CheckStep, SameTokens, SameSessions, SameRequests;
    UntouchedTokens(db1, db2, after1, after2, t);
    UntouchedRequests(db1, db2, after1, after2, t);
  }

  lemma RemoveUserAgrees(db1: DB, db2: DB, c: AdminCall, t: Time)
    requires Alike(db1, db2, t) && c.RemoveUser?
    ensures Alike(AdminStep(db1, c, t).db, AdminStep(db2, c, t).db, t)
    ensures AdminStep(db1, c, t).next == AdminStep(db2, c, t).next
  {
    DeleteUserAgrees(db1, db2, c.user, t);
    UntouchedRequests(db1, db2, DeleteUser(db1, c.user), DeleteUser(db2, c.user), t);
    hide SameTokens, SameSessions, SameRequests;
  }

  lemma CreationKeeps(db: DB, c: AdminCall, t: Time)
    requires c.CreateUser? || c.Provision?
    ensures var after := AdminStep(db, c, t).db; after == db.(users := after.users, clients := after.clients)
  {}

  ghost predicate SameAccounts(e1: Effect, e2: Effect) {
    e1.db.users == e2.db.users && e1.db.clients == e2.db.clients && e1.next == e2.next
  }

  lemma CreateUserMatches(db1: DB, db2: DB, c: AdminCall, t: Time)
    requires db1.users == db2.users && db1.clients == db2.clients && c.CreateUser?
    ensures SameAccounts(AdminStep(db1, c, t), AdminStep(db2, c, t))
  {}

  lemma ProvisionMatches(db1: DB, db2: DB, c: AdminCall, t: Time)
    requires db1.users == db2.users && db1.clients == db2.clients && c.Provision?
    ensures SameAccounts(AdminStep(db1, c, t), AdminStep(db2, c, t))
  {}

  lemma CreationAgrees(db1: DB, db2: DB, c: AdminCall, t: Time)
    requires Alike(db1, db2, t) && (c.CreateUser? || c.Provision?)
    ensures Alike(AdminStep(db1, c, t).db, AdminStep(db2, c, t).db, t)
    ensures AdminStep(db1, c, t).next == AdminStep(db2, c, t).next
  {
    hide SameTokens, SameSessions, SameRequests, AdminStep;
    var after1, after2 := AdminStep(db1, c, t).db, AdminStep(db2, c, t).db;
    CreationKeeps(db1, c, t);
    CreationKeeps(db2, c, t);
    if c.CreateUser? { CreateUserMatches(db1, db2, c, t); } else { ProvisionMatches(db1, db2, c, t); }
    UntouchedTokens(db1, db2, after1, after2, t);
    UntouchedSessions(db1, db2, after1, after2, t);
    UntouchedRequests(db1, db2, after1, after2, t);
  }

  lemma AdminStepAgrees(db1: DB, db2: DB, c: AdminCall, t: Time)
    requires Alike(db1, db2, t) && Plain(Admin(c))
    ensures Alike(AdminStep(db1, c, t).db, AdminStep(db2, c, t).db, t)
    ensures AdminStep(db1, c, t).next == AdminStep(db2, c, t).next
  {
    hide AdminStep, Alike;
    match c
    case SetPassword(_, _, _) => CredentialAgrees(db1, db2, c, t);
    case SetAdmin(_, _) => CredentialAgrees(db1, db2, c, t);
    case DeleteClient(_) => DeleteClientAgrees(db1, db2, c, t);
    case RemoveUser(_) => RemoveUserAgrees(db1, db2, c, t);
    case _ => CreationAgrees(db1, db2, c, t);
  }

  /** A plain statement sees, does and answers the same on two sites that look alike. */
  lemma StepAgrees(db1: DB, db2: DB, c: Call, t: Time)
    requires Alike(db1, db2, t) && Plain(c) && Codes.CodesOwned(db1) && Codes.CodesOwned(db2)
    requires forall id | id in Reserved(c) :: id !in Keys(db1) && id !in Keys(db2)
    ensures Alike(Step(db1, c, t).db, Step(db2, c, t).db, t)
    ensures Agree(c, Step(db1, c, t), Step(db2, c, t))
  {
    hide Alike, IssueStep, WithdrawStep, RequestStep, CheckStep, AdminStep;
    match c
    case Issue(i) => IssueStepAgrees(db1, db2, i, t);
    case Withdraw(w) => WithdrawStepAgrees(db1, db2, w, t);
    case Request(r) => RequestStepAgrees(db1, db2, r, t);
    case Check(q) => CheckStepAgrees(db1, db2, q, t);
    case Admin(a) => AdminStepAgrees(db1, db2, a, t);
  }

  // --- rows that are looked for without asking whether they expired ---

  predicate TokenLives(db: DB, token: Id, t: Time) {
    (token in db.access && db.access[token].expires >= t) || (token in db.refresh && db.refresh[token].expires >= t)
  }

  predicate SessionLives(db: DB, session: Id, t: Time) {
    session in db.sessions && db.sessions[session].expires >= t
  }

  lemma TokenLivesAtBoth(db1: DB, db2: DB, token: Id, t: Time)
    requires SameTokens(db1, db2, t)
    ensures TokenLives(db1, token, t) <==> TokenLives(db2, token, t)
    ensures token in db1.access && db1.access[token].expires >= t ==> token in db2.access && db1.access[token] == db2.access[token]
    ensures token in db1.refresh && db1.refresh[token].expires >= t ==> token in db2.refresh && db1.refresh[token] == db2.refresh[token]
  {}

  lemma DeadAccessUnseen(db: DB, token: Id, t: Time)
    requires token in db.access ==> db.access[token].expires < t
    ensures SameTokens(DeleteAccess(db, token), db, t)
  {}

  lemma DeadRefreshUnseen(db: DB, token: Id, t: Time)
    requires token in db.refresh ==> db.refresh[token].expires < t
    ensures SameTokens(DeleteRefresh(db, token), db, t)
  {}

  lemma DeadTiesUnseen(db: DB, token: Id, t: Time)
    requires forall id | id in db.access && db.access[id].refresh == Some(token) :: db.access[id].expires < t
    ensures SameTokens(DeleteAccessTiedTo(db, token, None), db, t)
  {}

  lemma DeadSessionUnseen(db: DB, session: Id, t: Time)
    requires !SessionLives(db, session, t)
    ensures SameSessions(DeleteSession(db, session), db, t)
  {}

  lemma SessionDeleted(db1: DB, db2: DB, session: Id, t: Time)
    requires SameSessions(db1, db2, t)
    ensures SameSessions(DeleteSession(db1, session), DeleteSession(db2, session), t)
  {}

  lemma AlikeChain(a: DB, b: DB, c: DB, t: Time)
    requires Alike(a, b, t) && Alike(b, c, t)
    ensures Alike(a, c, t)
  {
    RequestsChain(a, b, c, t);
    hide SameRequests;
  }

  lemma AlikeItself(db: DB, t: Time)
    ensures Alike(db, db, t)
  {}

  lemma AlikeBack(a: DB, b: DB, t: Time)
    requires Alike(a, b, t)
    ensures Alike(b, a, t)
  {}

  // --- what saving a code, completing a request and revoking a token answer ---

  /** Completing a request is answered differently exactly when one site alone still stores it, long after anyone could find it. */
  lemma CompleteDiffersExactly(db1: DB, db2: DB, id: Id, user: UserId, t: Time)
    requires SameRequests(db1, db2, t)
    ensures var r1, r2 := RequestStep(db1, Complete(id, user), t).next, RequestStep(db2, Complete(id, user), t).next;
      && (r1 != r2 <==> (id in db1.requests) != (id in db2.requests))
      && (r1 != r2 ==> !RequestLives(db1, id, t) && !RequestLives(db2, id, t))
  {}

  /** There is a place for a code. */
  predicate TakesCode(db: DB, id: Id) { id in db.requests && !HasCode(db, id) }

  /** Saving a code is answered differently exactly when one site alone has a place for it, in a request nobody can find. */
  lemma SaveCodeDiffersExactly(db1: DB, db2: DB, id: Id, code: Id, t: Time)
    requires SameRequests(db1, db2, t) && code !in db1.codes && code !in db2.codes
    ensures var r1, r2 := RequestStep(db1, SaveCode(id, code), t).next, RequestStep(db2, SaveCode(id, code), t).next;
      && (r1 != r2 <==> TakesCode(db1, id) != TakesCode(db2, id))
      && (r1 != r2 ==> !RequestLives(db1, id, t) && !RequestLives(db2, id, t))
  {
    if RequestLives(db1, id, t) {
      LivePlaceTaken(db1, db2, id, t);
      LivePlaceTaken(db2, db1, id, t);
    }
    assert RequestLives(db2, id, t) ==> RequestLives(db1, id, t);
    hide SameRequests, HasCode;
  }

  /** The token is stored and was issued to another client. */
  predicate Foreign(db: DB, token: Id, client: ClientId) {
    if token in db.access then db.access[token].client != client
    else token in db.refresh && db.refresh[token].client != client
  }

  /** Revoking is answered differently exactly when one site alone stores the token for another client, expired as it is. */
  lemma RevokeDiffersExactly(db1: DB, db2: DB, token: Id, client: ClientId, t: Time)
    requires SameTokens(db1, db2, t) && TokensOrdered(db1) && TokensOrdered(db2)
    ensures var r1, r2 := Ties.Revoked(db1, token, client).reply, Ties.Revoked(db2, token, client).reply;
      && (r1 != r2 <==> Foreign(db1, token, client) != Foreign(db2, token, client))
      && (r1 != r2 ==> !TokenLives(db1, token, t) && !TokenLives(db2, token, t))
  {
    TokenLivesAtBoth(db1, db2, token, t);
    TokenLivesAtBoth(db2, db1, token, t);
    hide SameTokens;
  }

  // --- every statement keeps a site healthy ---

  /** Where new token rows come from and how long they last. */
  ghost predicate NewTokens(db: DB, c: Call, after: DB, t: Time) {
    && (forall id | id in after.access && id !in db.access ::
          && after.access[id].expires == t + ACCESS_TOKEN_TTL
          && after.refresh.Keys <= db.refresh.Keys
          && (after.access[id].refresh.Some? ==> after.access[id].refresh.value in Reserved(c)))
    && (forall id | id in after.refresh && id !in db.refresh ::
          && after.refresh[id].expires == t + REFRESH_TOKEN_TTL
          && id in Reserved(c)
          && after.access.Keys <= db.access.Keys)
  }

  lemma StoreAccessNewTokens(db: DB, c: IssueCall, t: Time)
    requires !c.PairRefresh? && !c.RotateTx?
    ensures NewTokens(db, Issue(c), IssueStep(db, c, t).db, t)
  {}

  lemma PairRefreshNewTokens(db: DB, c: IssueCall, t: Time)
    requires c.PairRefresh?
    ensures NewTokens(db, Issue(c), IssueStep(db, c, t).db, t)
  {}

  lemma RotateTxNewTokens(db: DB, c: IssueCall, t: Time)
    requires c.RotateTx?
    ensures NewTokens(db, Issue(c), IssueStep(db, c, t).db, t)
  {}

  lemma StepNewTokens(db: DB, c: Call, t: Time)
    requires forall id | id in Reserved(c) :: id !in Keys(db)
    ensures NewTokens(db, c, Step(db, c, t).db, t)
  {
    if c.Issue? {
      hide NewTokens, IssueStep;
      if c.issue.PairRefresh? { PairRefreshNewTokens(db, c.issue, t); }
      else if c.issue.RotateTx? { RotateTxNewTokens(db, c.issue, t); }
      else { StoreAccessNewTokens(db, c.issue, t); }
    } else {
      hide Step;
      StepExtends(db, c, t);
    }
  }

  lemma TokensStayOrdered(db: DB, c: Call, after: DB, t: Time)
    requires TokensOrdered(db) && Bounded(db, t) && NewTokens(db, c, after, t)
    requires forall id | id in Reserved(c) :: id !in Keys(db)
    requires Extends(db.access, after.access, AccessKey(c)) && Extends(db.refresh, after.refresh, RefreshKey(c))
    requires forall id | Inserts(c, id) :: id in Reserved(c)
    ensures TokensOrdered(after)
  {
    forall id | id in after.access
      ensures id !in after.refresh
    {
      assert id !in db.access ==> Inserts(c, id);
      assert id in after.refresh && id !in db.refresh ==> Inserts(c, id);
    }
  }

  lemma StaysBounded(db: DB, c: Call, e: Effect, t: Time)
    requires Bounded(db, t) && Codes.CodesOwned(db) && NewTokens(db, c, e.db, t) && Codes.RowsExplained(db, c, e, t)
    requires Extends(db.access, e.db.access, AccessKey(c))
    ensures Bounded(e.db, t)
  {}

  lemma StaysHealthy(db: DB, c: Call, t: Time)
    requires Healthy(db, t) && DrawsDistinct(c) && forall id | id in Reserved(c) :: id !in Keys(db)
    ensures Healthy(Step(db, c, t).db, t)
  {
    hide Step, TokensOrdered, Bounded, NewTokens, Codes.CodesOwned, Codes.RowsExplained;
    var e := Step(db, c, t);
    StepNewTokens(db, c, t);
    StepExtends(db, c, t);
    ReservedShrinks(db, c, t);
    Codes.AllRowsExplained(db, c, t);
    Codes.OwnedStep(db, c, e, t);
    TokensStayOrdered(db, c, e.db, t);
    StaysBounded(db, c, e, t);
  }

  /** After a statement the ids its call still reserves are stored nowhere. */
  lemma StillUnstored(db: DB, c: Call, t: Time)
    requires DrawsDistinct(c) && forall id | id in Reserved(c) :: id !in Keys(db)
    ensures var e := Step(db, c, t);
      && (forall id | id in Keys(e.db) :: id in Keys(db) || id in Reserved(c))
      && (e.next.Continue? ==>
            && DrawsDistinct(e.next.call)
            && (forall id | id in Reserved(e.next.call) :: id in Reserved(c) && id !in Keys(e.db)))
  {
    hide Step;
    StepExtends(db, c, t);
    ReservedShrinks(db, c, t);
  }

  // --- whole operations ---

  predicate Rising(clock: seq<Time>) {
    forall i, j | 0 <= i < j < |clock| :: clock[i] <= clock[j]
  }

  lemma HealthyLater(db: DB, t: Time, later: Time)
    requires Healthy(db, t) && t <= later
    ensures Healthy(db, later)
  {}

  lemma {:induction false} RunStaysHealthy(db: DB, c: Call, clock: seq<Time>)
    requires |clock| >= Rank(c) && Rising(clock)
    requires Healthy(db, clock[0]) && DrawsDistinct(c) && forall id | id in Reserved(c) :: id !in Keys(db)
    ensures Healthy(Run(db, c, clock).db, clock[|clock| - 1])
    ensures forall id | id in Keys(Run(db, c, clock).db) :: id in Keys(db) || id in Reserved(c)
    decreases Rank(c)
  {
    hide Step, Healthy;
    RankDecreases(db, c, clock[0]);
    var e := Step(db, c, clock[0]);
    StaysHealthy(db, c, clock[0]);
    StillUnstored(db, c, clock[0]);
    if e.next.Continue? {
      HealthyLater(e.db, clock[0], clock[1]);
      RunStaysHealthy(e.db, e.next.call, clock[1..]);
    } else {
      HealthyLater(e.db, clock[0], clock[|clock| - 1]);
    }
  }
}
