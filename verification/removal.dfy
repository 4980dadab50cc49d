/**
  Ending the tokens of one user at one client, and of one client altogether: both
  remove every token concerned and no other, and a removed token never comes back.
 */
module Removal {
  import opened Wrappers
  import opened Schema
  import opened Calls
  import opened Interleaving
  import opened Identities
  import Integrity
  import SignOut

  /** The tokens that satisfy `gone` are deleted, every other row stays as it is. */
  ghost predicate TokensLost(db: DB, after: DB, gone: (UserId, ClientId) -> bool) {
    && (forall id :: id in after.access <==> id in db.access && !gone(db.access[id].user, db.access[id].client))
    && (forall id :: id in after.refresh <==> id in db.refresh && !gone(db.refresh[id].user, db.refresh[id].client))
    && Extends(db.access, after.access, {}) && Extends(db.refresh, after.refresh, {})
    && after.sessions == db.sessions && after.requests == db.requests && after.codes == db.codes && after.users == db.users
  }

  lemma TerminateOutcome(db: DB, user: UserId, client: ClientId, t: Time, t': Time)
    ensures Run(db, Withdraw(Terminate(Some(user), client)), [t, t'])
      == Completed(DeleteRefreshOf(DeleteAccessOf(db, user, client), user, client), Ok)
  {
    assert [t, t'][1..] == [t'];
  }

  /** Ending a user's session at a client deletes exactly the tokens of that user for that client. */
  lemma TerminateIsExact(db: DB, user: UserId, client: ClientId, t: Time, t': Time)
    ensures var r := Run(db, Withdraw(Terminate(Some(user), client)), [t, t']);
      && r.reply == Ok && r.db.clients == db.clients
      && TokensLost(db, r.db, (u: UserId, c: ClientId) => u == user && c == client)
  {
    TerminateOutcome(db, user, client, t, t');
    hide Run;
  }

  /** Removing an app's client deletes the client and exactly the tokens issued to it. */
  lemma ClientRemovalIsExact(db: DB, app: string, client: ClientId, t: Time)
    requires Integrity.OneClientPerApp(db) && client in db.clients && db.clients[client] == app
    ensures var e := AdminStep(db, DeleteClient(app), t);
      && e.next == Finish(Ok)
      && e.db.clients == db.clients - {client} && !HasClient(e.db.clients, app)
      && TokensLost(db, e.db, (u: UserId, c: ClientId) => c == client)
  {
    assert ClientOf(db.clients, app) == Some(client);
    hide ClientOf, HasClient;
    NoOtherClient(db, app, client);
  }

  lemma NoOtherClient(db: DB, app: string, client: ClientId)
    requires Integrity.OneClientPerApp(db) && client in db.clients && db.clients[client] == app
    ensures !HasClient(db.clients - {client}, app)
  {}

  /** Tokens issued to a client that is removed are refused in every later state of every interleaving. */
  lemma ClientRemovalIsPermanent(w: World, n: nat, t: Time, client: ClientId, es: seq<Event>, id: Id, later: Time)
    requires Ids(w) && Integrity.OneClientPerApp(w.db) && Enabled(w, Resume(n, t))
    requires client in w.db.clients && w.pending[n] == Admin(DeleteClient(w.db.clients[client]))
    requires (id in w.db.access && w.db.access[id].client == client) || (id in w.db.refresh && w.db.refresh[id].client == client)
    requires Legal(After(w, Resume(n, t)), es)
    ensures SignOut.Refused(AfterAll(After(w, Resume(n, t)), es).db, id, later)
  {
    var w' := After(w, Resume(n, t));
    assert Gone(w', id) by {
      RecordGrows(w.db, w.history, w.pending[n], t);
      TokenIsRemoved(w, client, id, t);
      hide Step;
    }
    hide Step, SignOut.Refused;
    IdsKept(w, Resume(n, t));
    GoneForever(w', es, id);
    SignOut.UnknownIsRefused(AfterAll(w', es).db, id, later);
  }

  lemma TokenIsRemoved(w: World, client: ClientId, id: Id, t: Time)
    requires Ids(w) && Integrity.OneClientPerApp(w.db) && client in w.db.clients
    requires (id in w.db.access && w.db.access[id].client == client) || (id in w.db.refresh && w.db.refresh[id].client == client)
    ensures Recorded(w.history, id)
    ensures id !in Keys(Step(w.db, Admin(DeleteClient(w.db.clients[client])), t).db)
  {
    ClientRemovalIsExact(w.db, w.db.clients[client], client, t);
    hide AdminStep, HasClient;
  }
}
