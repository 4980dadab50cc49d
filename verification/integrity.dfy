/**
  Referential integrity in every interleaving, and what it means for the question
  "is this token accepted?": the second statement of the check never fails on its own.
 */
module Integrity {
  import opened Wrappers
  import opened Schema
  import opened Calls
  import opened Interleaving
  import Codes
  import Identities

  /** Every session, access token and refresh token belongs to a user that exists. */
  ghost predicate OwnersExist(db: DB) {
    && (forall id | id in db.sessions :: db.sessions[id].user in db.users)
    && (forall id | id in db.access :: db.access[id].user in db.users)
    && (forall id | id in db.refresh :: db.refresh[id].user in db.users)
  }

  /** An app owns at most one client. */
  ghost predicate OneClientPerApp(db: DB) {
    forall c1, c2 | c1 in db.clients && c2 in db.clients && db.clients[c1] == db.clients[c2] :: c1 == c2
  }

  ghost predicate Integral(db: DB) { OwnersExist(db) && OneClientPerApp(db) }

  lemma StoreAccessKeeps(db: DB, c: IssueCall, t: Time)
    requires Integral(db) && !c.RotateTx?
    ensures Integral(IssueStep(db, c, t).db)
  {}

  lemma RotateTxKeeps(db: DB, c: IssueCall, t: Time)
    requires Integral(db) && c.RotateTx?
    ensures Integral(IssueStep(db, c, t).db)
  {}

  lemma WithdrawKeeps(db: DB, c: WithdrawCall, t: Time)
    requires Integral(db)
    ensures Integral(WithdrawStep(db, c, t).db)
  {}

  lemma CheckKeeps(db: DB, c: CheckCall, t: Time)
    requires Integral(db)
    ensures Integral(CheckStep(db, c, t).db)
  {}

  lemma RequestKeeps(db: DB, c: RequestCall, t: Time)
    requires Integral(db)
    ensures Integral(RequestStep(db, c, t).db)
  {}

  lemma RemoveUserKeeps(db: DB, c: AdminCall, t: Time)
    requires Integral(db) && c.RemoveUser?
    ensures Integral(AdminStep(db, c, t).db)
  {}

  lemma CredentialKeeps(db: DB, c: AdminCall, t: Time)
    requires Integral(db) && (c.SetPassword? || c.SetAdmin?)
    ensures Integral(AdminStep(db, c, t).db)
  {
    if c.user in db.users {
      var row := if c.SetPassword? then db.users[c.user].(passwordHash := c.hash) else db.users[c.user].(isAdmin := c.admin);
      RevokeSessionsKeeps(UpdateUser(db, c.user, row), c.user);
      hide RevokeSessions;
    }
  }

  lemma PurgeKeepsOwners(db: DB, table: Table, cutoff: Time)
    requires Integral(db)
    ensures Integral(DeleteExpired(db, table, cutoff))
  {}

  lemma OtherAdminKeeps(db: DB, c: AdminCall, t: Time)
    requires Integral(db) && (c.CreateUser? || c.Provision? || c.DeleteClient?)
    ensures Integral(AdminStep(db, c, t).db)
  {}

  lemma AdminKeeps(db: DB, c: AdminCall, t: Time)
    requires Integral(db)
    ensures Integral(AdminStep(db, c, t).db)
  {
    hide Integral, DeleteExpired;
    if c.Purge? { PurgeKeepsOwners(db, c.table, c.cutoff); }
    else {
      hide AdminStep;
      if c.RemoveUser? { RemoveUserKeeps(db, c, t); }
      else if c.SetPassword? || c.SetAdmin? { CredentialKeeps(db, c, t); }
      else { OtherAdminKeeps(db, c, t); }
    }
  }

  /** No statement breaks referential integrity, in whatever order statements run. */
  lemma StepKeepsIntegrity(db: DB, c: Call, t: Time)
    requires Integral(db)
    ensures Integral(Step(db, c, t).db)
  {
    hide Integral, IssueStep, WithdrawStep, RequestStep, CheckStep, AdminStep;
    match c
    case Issue(i) => if i.RotateTx? { RotateTxKeeps(db, i, t); } else { StoreAccessKeeps(db, i, t); }
    case Withdraw(w) => WithdrawKeeps(db, w, t);
    case Request(r) => RequestKeeps(db, r, t);
    case Check(q) => CheckKeeps(db, q, t);
    case Admin(a) => AdminKeeps(db, a, t);
  }

  lemma {:induction false} IntegrityAlways(w: World, es: seq<Event>)
    requires Integral(w.db) && Legal(w, es)
    ensures Integral(AfterAll(w, es).db)
    decreases |es|
  {
    if es != [] {
      hide Integral, Step;
      if es[0].Resume? { StepKeepsIntegrity(w.db, w.pending[es[0].caller], es[0].at); }
      IntegrityAlways(After(w, es[0]), es[1..]);
    }
  }

  /**
    What a check made of one piece accepts in a reachable state: a token or session that is
    stored and has not expired, and at introspection only for a client in its audience.
   */
  lemma AcceptedExactly(w0: World, es: seq<Event>, id: Id, client: ClientId, t: Time, t': Time)
    requires Init(w0) && Legal(w0, es)
    ensures var db := AfterAll(w0, es).db;
      && (Run(db, Check(LookupSession(id)), [t, t']).reply.SessionFound? <==> id in db.sessions && t <= db.sessions[id].expires)
      && (Run(db, Check(Userinfo(id)), [t, t']).reply.TokenAccepted? <==> id in db.access && t <= db.access[id].expires)
      && (Run(db, Check(Introspect(id, client)), [t, t']).reply.TokenAccepted? <==>
            (id in db.access && t <= db.access[id].expires && client in db.access[id].audience))
      && (Run(db, Issue(LoadRefresh(id)), [t]).reply.RefreshFound? <==> id in db.refresh && t <= db.refresh[id].expires)
  {
    IntegrityAlways(w0, es);
    var db := AfterAll(w0, es).db;
    assert OwnersExist(db);
    hide Legal, AfterAll, Init, OneClientPerApp;
    ChecksAccept(db, id, client, t, t');
    hide Run;
  }

  lemma ChecksAccept(db: DB, id: Id, client: ClientId, t: Time, t': Time)
    requires OwnersExist(db)
    ensures Run(db, Check(LookupSession(id)), [t, t']).reply.SessionFound? <==> id in db.sessions && t <= db.sessions[id].expires
    ensures Run(db, Check(Userinfo(id)), [t, t']).reply.TokenAccepted? <==> id in db.access && t <= db.access[id].expires
    ensures Run(db, Check(Introspect(id, client)), [t, t']).reply.TokenAccepted? <==>
      (id in db.access && t <= db.access[id].expires && client in db.access[id].audience)
    ensures Run(db, Issue(LoadRefresh(id)), [t]).reply.RefreshFound? <==> id in db.refresh && t <= db.refresh[id].expires
  {
    assert [t, t'][1..] == [t'];
  }
}
